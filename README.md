# NeuralGCM pytree mappings and core types, in Dafny

This project models the learned-mapping layer of NeuralGCM's experimental
API (`neuralgcm/experimental/pytree_mappings.py`), together with the
value types of `neuralgcm/experimental/core/typing.py` that go with it.

Pytree mappings turn a dictionary of arrays (a *pytree*) into another
dictionary of arrays. The output follows a declared *contract*: a
dictionary from field name to shape. The modelled modules are:

- `ChannelMapping`: packs the leaves along the column axis, runs a tower,
  and unpacks the result to the output contract.
- `VariableMapping`: stacks the leaves along a new leading axis, runs a
  tower, and unstacks the result.
- `MappingWithNormalizedInputs`: expands, normalizes, clips, then maps.
- `ParallelMapping`: the leafwise sum of several mappings.
- `Embedding` and `MaskedEmbedding`: feature module, mapping and
  post-transform, with sharding hooks between the steps. The masked
  variant zeroes NaN features under a mask.
- `LandSeaIceEmbedding`: blends land, sea and sea-ice embeddings with
  weights derived from a land-sea mask and a sea-ice fraction.
- `CoordsStateMapping`: an embedding whose output contract is built from
  coordinate shapes and field names.

From `typing.py` the project models:

- the `Randomness` record and its pytree flatten/unflatten pair;
- the defaults of `ModelState`;
- the ordered, frozen `KeyWithCosLatFactor` key.

How the model is built:

- **Modules are values.** Each module is a Dafny `datatype`. Its fields are
  assigned once by `__init__` and never updated, so `__init__` is a function
  returning `Result<…>`. A constructor that can raise, such as
  `ChannelMapping` on a rank-1 contract, has a failure path.
- **Loops stay methods.** The two source loops are kept as `method`s with
  loop invariants:
  - the dictionary-filling loops of `CoordsStateMapping.__init__`;
  - the consistency loop of `LandSeaIceEmbedding.output_shapes`.
- **Collaborators are functions.** Towers, feature modules, normalizations,
  clips, post-transforms, mapping factories and the mesh's sharding hooks
  are function-valued fields. What each one promises is a predicate in
  `Protocols`. The contract theorems take these predicates as hypotheses:
  - `KeepsOffAxes`: a tower keeps every axis except the channel axis;
  - `MeetsContract`, `TransformMeets`: a collaborator meets its declared
    output contract;
  - `Delivers`: a factory builds such a mapping;
  - `PreservesShapes`, `NoOp`: the sharding hooks.
- **Arrays are explicit.** An array is a shape plus its row-major data.
  Each element is a real number or NaN. Trees are `map<string, Array>`,
  and their leaves are ordered by key in code-point order, as
  `jax.tree.leaves` orders a dict.
- **Errors are values.** Exceptions are constructors of `Results.Error`.
  Every operation returns a `Result`, and the first failure wins.

## Model

| member | source | states |
|---|---|---|
| Embeddings.MinimalStateStruct | neuralgcm/experimental/pytree_mappings.py:45-48 | the minimal state has exactly one field, `time`, a rank-0 leaf holding the epoch |
| Embeddings.StateShapes | neuralgcm/experimental/pytree_mappings.py:223-229 | absent input state shapes default to the contract of the minimal state (`time` of rank 0); given ones are used as they are |
| Embeddings.NewEmbedding | neuralgcm/experimental/pytree_mappings.py:217-237 | the mapping is requested for the feature module's contract of the input state shapes; construction fails exactly when the factory fails; the fields are the arguments |
| Embeddings.Embedding.AsMapping | neuralgcm/experimental/pytree_mappings.py:252-259 | as a pytree mapping the embedding calls its forward pass and declares the transform's contract for the mapping's |
| Embeddings.ApplyWithoutSharding | neuralgcm/experimental/pytree_mappings.py:239-255 | with no-op sharding hooks the forward pass is feature module, then mapping, then transform, and the first failure is the result |
| Embeddings.Embedding.Features | neuralgcm/experimental/pytree_mappings.py:239-243 | the features exist exactly when the feature module succeeds on the sharded inputs; with no-op sharding they are the feature module's output |
| Embeddings.Embedding.Process | neuralgcm/experimental/pytree_mappings.py:245-250 | a failing mapping is the failure; with no-op sharding the result is the post-transform of the mapping's output |
| Embeddings.Embedding.Apply | neuralgcm/experimental/pytree_mappings.py:252-255 | a failure to compute the features is the call's failure; otherwise the features are processed |
| Embeddings.Embedding.ApplyMasked | neuralgcm/experimental/pytree_mappings.py:265-279 | without a mask it is the plain call; a failure to compute the features is the failure; with a mask the masked features are processed |
| Embeddings.Embedding.OutputShapes | neuralgcm/experimental/pytree_mappings.py:257-259 | with a post-transform that keeps contracts, the declared contract is the mapping's |
| Embeddings.FeaturesMeet | neuralgcm/experimental/pytree_mappings.py:239-243 | sharded features of an input of the state contract meet the feature module's declared contract |
| Embeddings.ProcessMeets | neuralgcm/experimental/pytree_mappings.py:245-250 | processing features of that contract succeeds and meets `output_shapes` |
| Embeddings.ApplyMeetsContract | neuralgcm/experimental/pytree_mappings.py:252-278 | both the plain and the masked call (with or without a mask) meet `output_shapes` on inputs of the state contract |
| Embeddings.EmbeddingMeetsContract | neuralgcm/experimental/pytree_mappings.py:217-259 | when the collaborators keep their contracts, the constructed embedding exists, declares `transform.output_shapes(output_shapes)`, and meets it on every input of the state contract |
| Embeddings.MaskLeaf | neuralgcm/experimental/pytree_mappings.py:269-275 | the shape is kept; a leaf of another shape than the mask is unchanged; under mask value 1 the result is a number; any change replaces a NaN under the mask by 0 |
| Embeddings.MaskTree | neuralgcm/experimental/pytree_mappings.py:276 | the mask is applied to every feature leaf, and the feature contract is kept |
| Embeddings.MaskedWithoutMask | neuralgcm/experimental/pytree_mappings.py:265-278 | the masked call without a mask is the plain call |
| Embeddings.MaskLeafWithoutNaN | neuralgcm/experimental/pytree_mappings.py:269-275 | masking changes no leaf free of NaN |
| Embeddings.MaskLeafIdempotent | neuralgcm/experimental/pytree_mappings.py:269-275 | masking twice is masking once |
| Embeddings.MaskedWithoutNaN | neuralgcm/experimental/pytree_mappings.py:265-278 | when the features hold no NaN, the masked call equals the plain call for any mask |
| ChannelMappings.NewChannelMapping | neuralgcm/experimental/pytree_mappings.py:59-81 | construction succeeds exactly when every input and output leaf has rank at least 2 (otherwise `x.shape[-3]` is out of range); the tower is built for the channel counts of the contracts expanded to rank 3 |
| ChannelMappings.ExpandedRanks | neuralgcm/experimental/pytree_mappings.py:70-77 | expanding a contract to rank 3 gives all ranks at least 3 exactly when all ranks were at least 2 |
| ChannelMappings.ChannelMappingFactory | neuralgcm/experimental/pytree_mappings.py:59-81 | the factory succeeds for exactly the contracts the constructor accepts |
| ChannelMappings.ChannelMapping.Apply | neuralgcm/experimental/pytree_mappings.py:83-100 | a failure to pack the expanded inputs is the call's failure; a packed array of rank other than 3 is a rank error naming its shape; otherwise the call hands the tower's output on; a successful call returns exactly the fields of the output contract |
| ChannelMappings.ChannelMapping.FromTower | neuralgcm/experimental/pytree_mappings.py:89-100 | a tower output of rank other than 3 is a rank error naming its shape; the rest succeeds exactly when the output's channel extent is the expanded output contract's channel count, and gives exactly the output fields |
| ChannelMappings.ChannelMapping.AsMapping | neuralgcm/experimental/pytree_mappings.py:83-104 | as a pytree mapping the module calls its forward pass and declares its output contract |
| ChannelMappings.ApplyEmpty | neuralgcm/experimental/pytree_mappings.py:85-88 | an input with no leaves cannot be packed, so the call fails |
| ChannelMappings.ApplyRankError | neuralgcm/experimental/pytree_mappings.py:85-88 | leaves that concatenate along axis -3 but have a rank above 3 pack into an array of that rank, and the call fails with the rank error for that array's shape |
| ChannelMappings.ExpandedOnGrid | neuralgcm/experimental/pytree_mappings.py:85 | inputs whose expanded contract lies on one grid expand to leaves on that grid |
| ChannelMappings.PackExpanded | neuralgcm/experimental/pytree_mappings.py:85-88 | such inputs pack into a rank-3 array whose channel extent is the input channel count, on the grid |
| ChannelMappings.SqueezedLeaf | neuralgcm/experimental/pytree_mappings.py:98-100 | an unpacked leaf squeezed to its target has the target shape |
| ChannelMappings.SqueezedShapes | neuralgcm/experimental/pytree_mappings.py:92-100 | a tower output with the output channel count unpacks and squeezes to exactly the output contract |
| ChannelMappings.ApplyOnGrid | neuralgcm/experimental/pytree_mappings.py:83-100 | on a non-empty input on one grid and a tower that maps channels only, the call succeeds and meets the output contract |
| ChannelMappings.ChannelMappingMeetsContract | neuralgcm/experimental/pytree_mappings.py:59-104 | a factory of channel-only towers makes the channel-mapping factory deliver its output contract on every input of the input contract |
| ChannelMappings.IdentityTowerRoundTrip | neuralgcm/experimental/pytree_mappings.py:83-100 | with an identity tower and matching contracts the call returns its input unchanged: pack, unpack and squeeze are mutually inverse |
| VariableMappings.NewVariableMapping | neuralgcm/experimental/pytree_mappings.py:125-140 | the tower is built for the numbers of input and output leaves; the output contract is kept |
| VariableMappings.VariableMappingFactory | neuralgcm/experimental/pytree_mappings.py:125-140 | the factory never fails |
| VariableMappings.VariableMapping.Apply | neuralgcm/experimental/pytree_mappings.py:142-151 | a failure to stack the inputs is the call's failure; a stacked array of rank other than 4 is a rank error naming its shape; otherwise the call hands the tower's output on; a successful call returns exactly the fields of the output contract |
| VariableMappings.VariableMapping.FromTower | neuralgcm/experimental/pytree_mappings.py:146-151 | a tower output of rank other than 4 is a rank error naming its shape; the rest succeeds exactly when the leading extent is the number of output fields, and gives exactly the output fields |
| VariableMappings.VariableMapping.AsMapping | neuralgcm/experimental/pytree_mappings.py:142-155 | as a pytree mapping the module calls its forward pass and declares its output contract |
| VariableMappings.StackRank | neuralgcm/experimental/pytree_mappings.py:143-145 | leaves of one shape stack into an array with the leaf count in front |
| VariableMappings.ApplyRankError | neuralgcm/experimental/pytree_mappings.py:143-145 | leaves of one shape that is not rank 3 give the ndim=4 error with the stacked shape |
| VariableMappings.ApplyMixedShapes | neuralgcm/experimental/pytree_mappings.py:143 | leaves of different shapes cannot be stacked |
| VariableMappings.ApplyUniform | neuralgcm/experimental/pytree_mappings.py:142-151 | rank-3 leaves of one shape, with a tower that maps channels only, give a successful call that meets the output contract |
| VariableMappings.UnstackedShapes | neuralgcm/experimental/pytree_mappings.py:149-151 | a tower output with one slice per output field unstacks to exactly the output contract |
| VariableMappings.VariableMappingMeetsContract | neuralgcm/experimental/pytree_mappings.py:125-155 | a factory of channel-only towers makes the variable-mapping factory deliver its output contract on uniform rank-3 inputs |
| VariableMappings.IdentityTowerRoundTrip | neuralgcm/experimental/pytree_mappings.py:142-151 | with an identity tower and matching contracts the call returns its input: stack and unstack are inverse |
| NormalizedMappings.NewMappingWithNormalizedInputs | neuralgcm/experimental/pytree_mappings.py:161-181 | the normalization is built for the input contract expanded to rank 3; the stored mapping is the one the factory returns for the normalization's declared contract of that, with the requested output contract; construction fails exactly when that request fails, with its error; the clip is stored as given |
| NormalizedMappings.MappingWithNormalizedInputs.Apply | neuralgcm/experimental/pytree_mappings.py:187-192 | a failing normalization of the expanded inputs is the call's failure |
| NormalizedMappings.MappingWithNormalizedInputs.Normalize | neuralgcm/experimental/pytree_mappings.py:187-188 | a normalization that meets its contract on the inputs' contract succeeds with the contract it declares |
| NormalizedMappings.MappingWithNormalizedInputs.AsMapping | neuralgcm/experimental/pytree_mappings.py:183-192 | as a pytree mapping the module calls its forward pass and declares its output contract |
| NormalizedMappings.ApplyWithoutClip | neuralgcm/experimental/pytree_mappings.py:168-192 | with the default identity clip the call is the inner mapping applied to the normalized, expanded inputs |
| NormalizedMappings.ApplyMeetsContract | neuralgcm/experimental/pytree_mappings.py:190-192 | when normalization and clip keep their contracts, the inner mapping sees inputs of the contract it was built for, and the call meets the mapping's contract |
| NormalizedMappings.NormalizedMeetsContract | neuralgcm/experimental/pytree_mappings.py:161-192 | when the collaborators keep their contracts, the constructed module meets its output contract on every input of its input contract |
| Protocols.Identity | neuralgcm/experimental/pytree_mappings.py:222 | the default transform returns its input and declares the contract it is given |
| Protocols.IdentityMeets | neuralgcm/experimental/pytree_mappings.py:222 | the identity transform meets every contract |
| ParallelMappings.ApplyAll | neuralgcm/experimental/pytree_mappings.py:206 | the member results exist exactly when every member succeeds, and they are the members' outputs in order |
| ParallelMappings.SumTrees | neuralgcm/experimental/pytree_mappings.py:207 | the leafwise sum of trees of one structure has that structure |
| ParallelMappings.ElementSum | neuralgcm/experimental/pytree_mappings.py:207 | the sum of one element across members is a number exactly when every member's element is, and one member's element is its own sum |
| ParallelMappings.ParallelMapping.Apply | neuralgcm/experimental/pytree_mappings.py:205-207 | a successful call has at least one member, and every member succeeded |
| ParallelMappings.ParallelMapping.OutputShapes | neuralgcm/experimental/pytree_mappings.py:209-211 | the contract is the first member's; with no members it is an error |
| ParallelMappings.AllMeetStructure | neuralgcm/experimental/pytree_mappings.py:207 | trees of one contract have one structure |
| ParallelMappings.AddSameShapes | neuralgcm/experimental/pytree_mappings.py:207 | adding two trees of one contract succeeds and keeps the contract |
| ParallelMappings.AddSameShapesAt | neuralgcm/experimental/pytree_mappings.py:207 | each element of such a sum is the sum of the two elements |
| ParallelMappings.SumTreesShapes | neuralgcm/experimental/pytree_mappings.py:207 | summing any positive number of trees of one contract succeeds and keeps the contract |
| ParallelMappings.SumTreesAt | neuralgcm/experimental/pytree_mappings.py:207 | each element of the sum is the left-to-right sum of the members' elements at that place |
| ParallelMappings.MemberOutputs | neuralgcm/experimental/pytree_mappings.py:206 | the list of member outputs, in member order |
| ParallelMappings.ParallelShapes | neuralgcm/experimental/pytree_mappings.py:205-211 | when every member meets one contract, the call succeeds, meets it, and declares it |
| ParallelMappings.ParallelSum | neuralgcm/experimental/pytree_mappings.py:205-207 | then each output element is the sum of the members' outputs at that element |
| ParallelMappings.TwoMembers | neuralgcm/experimental/pytree_mappings.py:205-207 | two members give the leafwise sum of their outputs |
| ParallelMappings.BroadcastAddCommutes | neuralgcm/experimental/pytree_mappings.py:207 | broadcast addition of two leaves is commutative, failures included |
| ParallelMappings.TreeAddCommutes | neuralgcm/experimental/pytree_mappings.py:207 | leafwise tree addition is commutative, failures included |
| ParallelMappings.TwoMembersCommute | neuralgcm/experimental/pytree_mappings.py:205-207 | the order of two members does not change the result |
| LandSeaIce.WeightsPartition | neuralgcm/experimental/pytree_mappings.py:318-331 | where mask and sea-ice fraction are numbers, land, sea and sea-ice weights are numbers summing to 1 |
| LandSeaIce.WeightsInUnitInterval | neuralgcm/experimental/pytree_mappings.py:318-331 | with mask and sea-ice fraction in [0, 1], every weight is in [0, 1] |
| LandSeaIce.CellWeights | neuralgcm/experimental/pytree_mappings.py:318-331 | at a cell with a non-negative mask and a numeric sea-ice fraction the land weight is the mask; at a NaN sea-ice fraction the land weight is at least 1; a NaN mask makes every weight NaN |
| LandSeaIce.Blend | neuralgcm/experimental/pytree_mappings.py:335-344 | the blend is a number exactly when the three weights and the three outputs are, and is then the weighted sum |
| LandSeaIce.LandFraction | neuralgcm/experimental/pytree_mappings.py:320-323 | a mask of the land mask's shape gives a land fraction of that shape holding the elementwise maximum |
| LandSeaIce.LandFractionCoversMask | neuralgcm/experimental/pytree_mappings.py:318-322 | the land fraction is at least the land mask and at least the land-sea mask |
| LandSeaIce.LandCellIsNaN | neuralgcm/experimental/pytree_mappings.py:318-343 | at a land cell (NaN sea-ice fraction) the sea and sea-ice weights are NaN, and so is the blend |
| LandSeaIce.FullLandCell | neuralgcm/experimental/pytree_mappings.py:326-343 | where the land fraction is 1, the sea-ice fraction is a number, and the sea and sea-ice outputs are numbers, the blend is the land output |
| LandSeaIce.BlendOfEqualOutputs | neuralgcm/experimental/pytree_mappings.py:326-343 | where the mask and the sea-ice fraction are numbers, three equal outputs (a number or NaN) blend to that output |
| LandSeaIce.Weigh | neuralgcm/experimental/pytree_mappings.py:326-331 | the land weight is the land fraction |
| LandSeaIce.LandSeaIceEmbedding.SeaIceFraction | neuralgcm/experimental/pytree_mappings.py:318 | the `sea_ice_cover` feature when the sea-ice feature module succeeds and provides it; its failure otherwise, or a KeyError for the missing field |
| LandSeaIce.LandSeaIceEmbedding.LandSeaMask | neuralgcm/experimental/pytree_mappings.py:320-322 | the `land_sea_mask` feature when the land-sea-mask feature module succeeds and provides it; its failure otherwise, or a KeyError for the missing field |
| LandSeaIce.LandSeaIceEmbedding.Apply | neuralgcm/experimental/pytree_mappings.py:310-345 | failures of the sea-ice fraction, then of the land-sea mask, then of the land fraction are the call's failure, in that order; its value is given by ApplyIsBlend and ApplyBlends |
| LandSeaIce.WeighShapes | neuralgcm/experimental/pytree_mappings.py:318-331 | on a mask and a sea-ice fraction of one shape, the land fraction and all weights exist with that shape |
| LandSeaIce.WeightArraysAt | neuralgcm/experimental/pytree_mappings.py:318-331 | element by element, the weight arrays are the cell weights of the mask and sea-ice values |
| LandSeaIce.WeightsAligned | neuralgcm/experimental/pytree_mappings.py:318-343 | the weights that broadcasting aligns with an output element are the cell weights of the aligned mask and sea-ice values |
| LandSeaIce.BlendTrees | neuralgcm/experimental/pytree_mappings.py:335-344 | the blend has the fields of the land outputs |
| LandSeaIce.SumOfThree | neuralgcm/experimental/pytree_mappings.py:339-344 | the three-way leafwise sum has the fields of its first tree |
| LandSeaIce.ScaleAt | neuralgcm/experimental/pytree_mappings.py:335-337 | scaling a leaf multiplies each element by the weight broadcasting aligns with it, and keeps the leaf shape |
| LandSeaIce.ScaleTree | neuralgcm/experimental/pytree_mappings.py:335-337 | scaling succeeds on leaves whose shapes end in the weight shape, and keeps their shapes |
| LandSeaIce.AddSameTrees | neuralgcm/experimental/pytree_mappings.py:339-344 | two trees with equal leaf shapes add without broadcasting and keep the shapes |
| LandSeaIce.SumOfThreeShapes | neuralgcm/experimental/pytree_mappings.py:339-344 | three trees with equal leaf shapes sum and keep the shapes |
| LandSeaIce.SumOfThreeAt | neuralgcm/experimental/pytree_mappings.py:339-344 | each element of that sum is `a + b + c` of the three elements |
| LandSeaIce.BlendShapes | neuralgcm/experimental/pytree_mappings.py:335-344 | on three output trees of one contract whose leaves end in the weight shape, blending succeeds and keeps the contract |
| LandSeaIce.BlendAt | neuralgcm/experimental/pytree_mappings.py:335-344 | each blended element is the cell blend of the three outputs under the aligned weights |
| LandSeaIce.LandSeaIceEmbedding.OutputShapes | neuralgcm/experimental/pytree_mappings.py:347-355 | the method succeeds exactly when the three sub-embeddings declare one contract, then returns the transform's contract for it; otherwise it fails with an inconsistent-shapes error |
| LandSeaIce.NewLandSeaIceEmbedding | neuralgcm/experimental/pytree_mappings.py:284-308 | the land, sea and sea-ice embeddings are built in that order for the one output contract; the two feature modules and the post-transform are stored as given; construction fails exactly when one factory fails, and the first failure in land, sea, sea-ice order is the result |
| LandSeaIce.ApplyIsBlend | neuralgcm/experimental/pytree_mappings.py:310-345 | on a regular input with the identity post-transform, the call is the blend of the three land-masked sub-embedding outputs under the weights |
| LandSeaIce.ApplyBlends | neuralgcm/experimental/pytree_mappings.py:310-345 | then the call succeeds, keeps the outputs' contract, and each element is the cell blend of the three outputs under the cell weights of the aligned mask and sea-ice values |
| CoordsStateMappings.StateShapesFields | neuralgcm/experimental/pytree_mappings.py:372-376 | the contract has exactly the named fields; surface names get the horizontal shape, and volume-only names the full shape |
| CoordsStateMappings.BuildStateShapes | neuralgcm/experimental/pytree_mappings.py:372-376 | the volume loop followed by the surface loop builds exactly that contract, so a name in both lists ends with the surface shape |
| CoordsStateMappings.NewCoordsStateMapping | neuralgcm/experimental/pytree_mappings.py:361-380 | the embedding is requested for the coordinate contract; construction fails exactly when the factory fails; the fields are the arguments |
| CoordsStateMappings.CoordsStateMapping.Apply | neuralgcm/experimental/pytree_mappings.py:382-386 | a failing embedding is the call's failure |
| CoordsStateMappings.CoordsStateMapping.AsMapping | neuralgcm/experimental/pytree_mappings.py:382-390 | as a pytree mapping the module calls its forward pass and declares the transform's contract for the embedding's |
| CoordsStateMappings.CoordsStateMapping.OutputShapes | neuralgcm/experimental/pytree_mappings.py:388-390 | with a transform that keeps contracts, the declared contract is the embedding's |
| CoordsStateMappings.DeclaresCoordinateShapes | neuralgcm/experimental/pytree_mappings.py:372-390 | with the identity transform and an embedding that declares what it was asked for, the module declares the coordinate contract |
| CoordsStateMappings.ApplyWithoutSharding | neuralgcm/experimental/pytree_mappings.py:382-386 | with a no-op mesh the call is the transform of the embedding's output |
| CoordsStateMappings.CoordsMeetsContract | neuralgcm/experimental/pytree_mappings.py:382-390 | when embedding and transform keep their contracts and sharding keeps shapes, the module meets `output_shapes` |
| Typing.NewRandomness | neuralgcm/experimental/core/typing.py:79-86 | one to three positional arguments construct the state, the first as the key, the second as the step and the third as the core; the step defaults to 0 and the core to None; other arities are a TypeError |
| Typing.Flatten | neuralgcm/experimental/core/typing.py:88-92 | the leaves are the key, the step and the core, in that order, and the auxiliary data is empty |
| Typing.Unflatten | neuralgcm/experimental/core/typing.py:94-97 | unflattening succeeds exactly for one to three values in all; three leaves and no auxiliary data become key, step and core in that order |
| Typing.UnflattenFlatten | neuralgcm/experimental/core/typing.py:88-97 | unflattening a flattened state rebuilds it |
| Typing.FlattenUnflatten | neuralgcm/experimental/core/typing.py:88-97 | flattening a state unflattened from three leaves gives those leaves back, in order |
| Typing.FlattenInjective | neuralgcm/experimental/core/typing.py:88-92 | states with the same flattening are equal |
| Typing.NewModelState | neuralgcm/experimental/core/typing.py:65-76 | omitted diagnostics and randomness default to empty dicts; given ones are kept |
| Typing.ModelStateDefaults | neuralgcm/experimental/core/typing.py:74-76 | a state built from prognostics alone has empty diagnostics and randomness |
| Typing.LeIsLtOrEq | neuralgcm/experimental/core/typing.py:108-114 | `<=` is `<` or equality, and equality is equality of name and factor order |
| Typing.Lt | neuralgcm/experimental/core/typing.py:109-114 | keys with different names are ordered by name; keys with one name are ordered by factor order, strictly |
| Typing.Le | neuralgcm/experimental/core/typing.py:109-114 | keys with different names are ordered by name; keys with one name are ordered by factor order, non-strictly |
| Typing.LtIrreflexive | neuralgcm/experimental/core/typing.py:108-114 | no key is below itself |
| Typing.LtTransitive | neuralgcm/experimental/core/typing.py:108-114 | `<` is transitive |
| Typing.LtTotal | neuralgcm/experimental/core/typing.py:108-114 | any two keys are equal or ordered one way, and never both ways |
| Typing.LeTotalOrder | neuralgcm/experimental/core/typing.py:108-114 | `<=` is reflexive, antisymmetric, transitive and total |
| StringOrder.LessTransitive | neuralgcm/experimental/core/typing.py:112 | Python's string order, which orders the key names, is transitive |
| StringOrder.LessTrichotomous | neuralgcm/experimental/core/typing.py:112 | any two strings are equal or ordered one way |
| Pytrees.KeyPosition | neuralgcm/experimental/pytree_mappings.py:76-77 | every dictionary key has a place in the leaf order |
| Pytrees.ExpandCommutesWithShapes | neuralgcm/experimental/pytree_mappings.py:70-75 | expanding inputs to rank 3 and expanding their contract agree |
| Pytrees.ExpandTree | neuralgcm/experimental/pytree_mappings.py:85 | rank-2 leaves gain a leading axis of extent 1, other leaves are unchanged, and the data is kept |
| Pytrees.ExpandShapes | neuralgcm/experimental/pytree_mappings.py:92-94 | rank-2 shapes gain a leading 1, other shapes are unchanged |
| Pytrees.SqueezeToShapes | neuralgcm/experimental/pytree_mappings.py:98-100 | a leaf whose target has rank 2 and whose shape is that target behind a leading 1 gets the target shape; other leaves are unchanged; the data is kept |
| Pytrees.SqueezeUndoesExpand | neuralgcm/experimental/pytree_mappings.py:92-100 | squeezing to the original shapes undoes the expansion |
| Pytrees.TreeMap2 | neuralgcm/experimental/pytree_mappings.py:207 | the leafwise map succeeds exactly on trees of one structure whose leaves broadcast, and each leaf is the broadcast result |
| Pytrees.TreeScale | neuralgcm/experimental/pytree_mappings.py:335-337 | scaling succeeds exactly when the weight broadcasts with every leaf, and each leaf is the broadcast product |
| Arrays.Broadcast | neuralgcm/experimental/pytree_mappings.py:319-332 | the elementwise operation succeeds exactly when one shape ends the other; the result has the larger shape, and each element combines the aligned elements |
| Packing.Pack | neuralgcm/experimental/pytree_mappings.py:86 | packing succeeds exactly when the leaves concatenate along axis -3; the channel extent is the contract's channel count |
| Packing.PackRankError | neuralgcm/experimental/pytree_mappings.py:85-86 | a leaf of rank below 3 cannot be packed along axis -3 |
| Packing.PackOnGrid | neuralgcm/experimental/pytree_mappings.py:86 | leaves on one grid pack into a rank-3 array holding their data in key order |
| Packing.Unpack | neuralgcm/experimental/pytree_mappings.py:95-97 | unpacking gives exactly the contract's fields, each the next block of channels in key order |
| Packing.UnpackPack | neuralgcm/experimental/pytree_mappings.py:86-97 | unpacking a packed tree to its own contract gives the tree back |
| Packing.Stack | neuralgcm/experimental/pytree_mappings.py:143 | stacking succeeds exactly when all leaves share one shape, and puts the leaf count in front |
| Packing.Unstack | neuralgcm/experimental/pytree_mappings.py:149-151 | unstacking succeeds exactly when the leading extent is the field count, giving each field one slice in key order |
| Packing.UnstackStack | neuralgcm/experimental/pytree_mappings.py:143-151 | unstacking a stacked tree to its own contract gives the tree back |

## Left out

- The pytree helpers `expand_to_ndim`, `pack_pytree`, `unpack_to_pytree`, `squeeze_to_shapes`, `stack_pytree` and `unstack_to_pytree` live in `pytree_utils`, which is not part of this model. `Pytrees` and `Packing` define them concretely:
  - concatenation along axis -3, in key order;
  - an extra leading axis for rank-2 leaves;
  - squeezing of that axis back to rank-2 targets;
  - errors when the sizes disagree.
- Towers, feature modules, normalizations, clips, post-transforms and mapping factories: these are abstract functions. Their promises are hypotheses of the theorems.
- The sharding hooks of `parallelism.Mesh`: these are abstract functions. They are assumed to keep shapes, and are treated as identities where a lemma says so.
- `nnx` parameter initialisation, `rngs` and training-time statistics: not modelled.
- dtypes: not modelled. `ShapeFloatStruct` is a shape.
- Floating point: elements are reals or NaN. Infinities and rounding are not modelled.
- Broadcasting: modelled only when one shape is a trailing part of the other. Any other pair of shapes is reported as a broadcasting error.
- The time leaf of `minimal_state_struct`: a rank-0 count of seconds since the epoch rather than a datetime object.
- The clip factory of `MappingWithNormalizedInputs` takes no arguments. It is represented by the transform it returns.
- Python's `sum(args)` in `ParallelMapping` starts from 0. `0 + x` is `x` for every modelled element value, so the model's fold starts from the first member.
- The fresh-dict defaults of `ModelState`: values are immutable here, so the model cannot express aliasing between instances.
- The frozen and hashable nature of `KeyWithCosLatFactor`: this is given by its being a datatype, and hashing is not modelled.
- The field annotations of `Randomness`: they are not checked, as in Python. A field can hold any `Value`.
- LandSeaIce.ApplyBlends: stated for the identity post-transform. With another transform the result is that transform applied to the blend, by the definition of `Apply`. Its `Regular` hypothesis also asks more than the code: the land-sea mask must have the sea-ice fraction's shape, although `jnp.maximum` broadcasts them; and the three sub-embedding outputs must have the same leaf shapes, each ending in that shape, although `a + b + c` broadcasts them too. Inputs whose shapes only broadcast are not covered.
- LandSeaIce.ApplyIsBlend: the same identity post-transform and the same `Regular` shape restrictions as `ApplyBlends`.
- LandSeaIce.WeightsPartition: stated only where the sea-ice fraction is a number. The code computes `sea_ice_fraction * sea_fraction` with a NaN fraction at land cells, so the sea and sea-ice weights there are NaN, and so is the blended output. `LandCellIsNaN` proves this. The weights are built to sum to 1 (`sea_fraction = 1 - land_fraction`, split between open sea and sea ice), but at land cells the code yields NaN rather than a land weight of 1 with zero sea weights, and the model follows the code.
- ChannelMappings.ChannelMappingMeetsContract and ChannelMappings.ApplyOnGrid: stated for inputs and outputs on one horizontal grid (rank 3 after expansion, with shared trailing axes). Other layouts are modelled by `Apply` but carry no contract theorem.
- VariableMappings.VariableMappingMeetsContract: stated for leaves of one rank-3 shape. That is the case the class documents; other inputs are covered by `ApplyRankError` and `ApplyMixedShapes`.
