# momi2 core in Dafny

This project models three parts of the momi2 population-genetics package:

- **The bookkeeping of the numeric kernel** (`math_functions.py`). This covers:
  - `_next_regular`, which finds the least 5-smooth number at or above a target;
  - the label relabelling of `einsum2` and the argument swap of `make_einsum_grad`;
  - the label and shape logic of `sum_antidiagonals`;
  - the padded lengths and slices of `fft_einsum`, and the shapes of `fftngrad`;
  - the branches of `expm1d` and its Taylor fallback;
  - the series/naive split of `transformed_expi` and the series itself.
- **The ms command-line parser and its demography state machine** (`parse_ms.py`). This covers:
  - how `MsCmdParser` cuts a command into flag groups;
  - how it stably sorts them by time with `bisect_right` and ranks the `#k` populations;
  - how it substitutes `$name` parameters;
  - how it runs the handlers `_I`, `_es`, `_ej`, `_en`, `_eN`, `_eg`, `_eG`, `_n`, `_g`, `_G` over a `roots`/`nodes`/`edges`/`events` state;
  - how it fills in epochs in `set_sizes` and checks for a single root in `to_nx`;
  - how `read_empirical_sfs` turns ms haplotype output into a multiset of per-population derived-allele counts.
- **The SFS statistic plumbing** (`momi/sfs_stats.py`). This covers:
  - the sampled-population filter;
  - the hypergeometric weight vector of `ordered_prob`, as exact rational arithmetic over `real`;
  - the subsample dictionaries behind `count_1100`, `baba`, `abba`, `f4`, `f3` and `f2`, and the fold;
  - the monomorphic correction vectors of the observed and expected statistics;
  - the componentwise algebra of `JackknifeStat`.

The model is functional: immutable datatypes, sequences and maps, pure functions, and a few methods where the source has loops.

Python errors become `Failure` values of a `Result`. This includes raised exceptions, failed `assert`s, `KeyError`, `IndexError` and `NameError`. Floats are `Num` (`numbers.dfy`): an idealised `real`, the two infinities and NaN.

| file | module | models |
|---|---|---|
| wrappers.dfy | Wrappers | `Option` and `Result` |
| numbers.dfy | Numbers | Python floats as `Num`: subtraction, ordering, NaN |
| decimal.dfy | Decimal | the built-ins the parser relies on: `int()`, `float()`, `str(int)`, `str.split()`, `str.split(sep)` |
| regular.dfy | Regular | `_next_regular` |
| einsum.dfy | Einsum | `einsum2` relabelling, `make_einsum_grad`, the trace gradient's `einsum2` call |
| axes.dfy | Axes | `swapaxes` and `sum_antidiagonals` on shapes and labels |
| spectral.dfy | Spectral | `fft_einsum`, `fftn` and `fftngrad` shapes and slices |
| special.dfy | Special | `expm1d`, `expm1d_taylor`, `transformed_expi_series`, `transformed_expi` |
| ms_params.dfy | MsParams | `params_dict`, `get`, `getint`, `getfloat` |
| ms_commands.dfy | MsCommands | `sorted_cmd_list` |
| ms_demography.dfy | MsDemography | `getpop`, the event handlers, `add_event`, `set_sizes`, `to_nx`, `_to_nx` |
| ms_sfs.dfy | MsSfs | `read_empirical_sfs` |
| sfs_stats.dfy | SfsStats | `SfsStats`, `ObservedSfsStats`, `ExpectedSfsStats` |
| jackknife.dfy | Jackknife | `JackknifeStat` |

Where the code and its design description disagree, the model follows the code:

- `fft_einsum` looks every FFT label up with `out_labels.index`. An FFT label that is missing from the output labels therefore raises; it is not silently allowed (`Spectral.FftEinsumPlan`).
- `sum_antidiagonals` does not keep the leftover labels in order. It applies the same two transpositions to the labels and to the array, so the labels stay aligned with the array axes whenever the two collapsed axes have at least one antidiagonal (`Axes.SumAntidiagonalsShape`, `Axes.LeftoverOrderNotKept`). When they have none, the array is `np.array([])` of shape `(0,)` while the label list still names every remaining axis (`Axes.EmptyAntidiagonalsDropAxes`).
- `fft_einsum` hands its transformed operands to `np.einsum`, so numpy's size rules apply. A label repeated in one operand must have one size there. A label shared by both operands must have equal sizes, or size 1 on one side, which is broadcast (`Spectral.FftEinsumPlan`).
- In `set_sizes`, an epoch without its own `N` inherits the previous epoch's `N_top`, not its `N` (`MsDemography.SetSizes`).
- `_n` and `_g` refer to an undefined name `kwargs` after an event has occurred. Either way the call fails, and the model reports `EventsAlreadyOccurred`.

## Model

| member | source | states |
|---|---|---|
| Regular.NextRegular | math_functions.py:166-214 | Targets up to 6 and powers of two come back unchanged. For a positive target the result is at least the target and regular (only prime factors 2, 3, 5), and no regular number lies between the target and the result. |
| Regular.ScanThrees | math_functions.py:186-208 | The inner `p35` loop either finds the target itself to be regular, or leaves a best candidate that covers every 5-smooth number whose power of five is at most the current one. |
| Regular.NextRegularExamples | math_functions.py:166-214 | The least regular numbers at or above 7 and 11 are 8 and 12. |
| Regular.RegularIffSmooth | math_functions.py:170-171 | A number is regular (reducible to 1 by dividing out 2, 3 and 5) exactly when it is 2^a·3^b·5^c. |
| Regular.SmoothIsRegular | math_functions.py:170-171 | Every 2^a·3^b·5^c is regular. |
| Regular.RegularIsSmooth | math_functions.py:170-171 | Every regular number is some 2^a·3^b·5^c. |
| Regular.PowerOfTwoBitTest | math_functions.py:179-181 | For n ≥ 1, `n & (n-1) == 0` holds exactly when n is a power of two. |
| Regular.PowerOfTwoIsRegular | math_functions.py:179-181 | Returning a power of two unchanged returns a regular number. |
| Regular.SmallTargetsAreRegular | math_functions.py:176-177 | Targets 1 to 6 are themselves regular, so returning them is correct. |
| Regular.CeilingDivision | math_functions.py:188-190 | `-(-t // d)` with floor division is the ceiling of t/d: positive, at least t/d, and the least such multiple. |
| Regular.NextPowerOfTwoIsLeast | math_functions.py:192-194 | `2**((q-1).bit_length())` is at least q and is the least power of two that is at least q. |
| Regular.BitLengthBounds | math_functions.py:194 | `bit_length` brackets x between two consecutive powers of two. |
| Regular.CandidateIsLeast | math_functions.py:190-199 | For a fixed `p35`, `N = p2*p35` reaches the target, and no smaller power of two times `p35` does. |
| Regular.InnerStep | math_functions.py:187-204 | One inner iteration computes a 5-smooth N ≥ target and extends the coverage of the best candidate to the next power of three. |
| Regular.InnerExit | math_functions.py:207-208 | When `p35` passes the target, taking it as a candidate covers every exponent of three for this power of five. |
| Regular.OuterExit | math_functions.py:212-214 | When `p5` passes the target, the final `match` is at most every 5-smooth number at or above the target. |
| Regular.LowerBoundExcludesRegulars | math_functions.py:166-214 | A lower bound on every 5-smooth number ≥ target leaves no regular number between the target and the bound. |
| Regular.Improve | math_functions.py:202-203 | `match = min(match, N)`: the result is at most both N and the old match, and is one of them. |
| Einsum.Einsum2Args | math_functions.py:14-23 | The call succeeds exactly when the argument count is odd. Operands are kept, every label list keeps its length, and each label is replaced by its dense number. |
| Einsum.RelabellingKeepsPattern | math_functions.py:16-23 | Two label positions get equal integers exactly when they held equal labels, and every integer lies in [0, number of distinct labels). |
| Einsum.Numbering | math_functions.py:20 | The label-to-integer map is defined on exactly the labels used, is injective, and takes values below its size. |
| Einsum.Distinct | math_functions.py:20 | `set(...)` keeps each label once and keeps exactly the labels of the input. |
| Einsum.IndexMap | math_functions.py:20 | `{idx: i for i, idx in enumerate(...)}` over a duplicate-free list is a bijection onto the positions. |
| Einsum.AllLabels | math_functions.py:18-20 | The concatenated label lists contain exactly the labels found in the label-list arguments. |
| Einsum.EinsumGradArgs | math_functions.py:30-37 | Odd `argnum` fails, and so does an `argnum + 1` past the end (IndexError). Otherwise the gradient arguments put g at `argnum`, swap the output list with operand `argnum`'s label list, and leave every other argument unchanged. |
| Einsum.SwapTwiceRestores | math_functions.py:32-34 | Swapping the output list with a label list twice restores the original argument list. |
| Einsum.GradCallIsWellFormed | math_functions.py:35-38 | The gradient's `einsum2` call is well formed: labels still alternate with operands, the count stays odd, and the call succeeds. |
| Einsum.TraceGradArgs | math_functions.py:71-75 | The trace gradient's call has five arguments in `einsum2`'s calling convention: operands at 0 and 2, label lists at 1, 3 and 4. |
| Einsum.TraceGradIsOuterProduct | math_functions.py:71-75 | After `einsum2` renumbers the labels, the trace gradient's call still succeeds with `eye` and g in place. It is an outer product: the output labels are duplicate-free, one per input dimension, and are exactly `eye`'s labels followed by g's. This holds for every enumeration of the labels. |
| Axes.SwapInvolution | math_functions.py:59-60 | Swapping two axes twice is the identity. |
| Axes.SumAntidiagonals | math_functions.py:42-56 | The call succeeds exactly when the axes differ and both labels occur. |
| Axes.SumAntidiagonalsShape | math_functions.py:43-54 | The label list loses one entry: `new_axis` leads, followed by the labels the two transpositions leave behind. With at least one antidiagonal, the shape is that count followed by the sizes the same transpositions leave behind, so labels and axes stay aligned. With none, the shape is `(0,)`, and it has as many axes as there are labels exactly when no other axis was left. |
| Axes.EmptyAntidiagonalsDropAxes | math_functions.py:47-54 | As written, shape (0, 0, 5) with labels [a, b, c] collapsing a and b gives shape (0,) but labels [new, c]. |
| Axes.FirstIndex | math_functions.py:44 | `labels.index(x)`: absent exactly when x does not occur, otherwise the first position holding x. |
| Axes.TransposeZip | math_functions.py:46-53 | Transposing (size, label) pairs equals transposing shapes and labels separately, so labels and axes move together. |
| Axes.AxisOneAtFrontSurvives | math_functions.py:44-54 | As written, for labels [b, x, a] with axis0 = a and axis1 = b, the function collapses x with a and keeps b. |
| Axes.LeftoverOrderNotKept | math_functions.py:44-54 | As written, for labels [x, a, y, b] with axis0 = a and axis1 = b, the leftover labels come out as [y, x]. |
| Axes.SumAntidiagonalsFixed | math_functions.py:42-56 | The corrected version succeeds under the same conditions as the original. It keeps one (size, label) pair per axis, so labels cannot drift from the shape. |
| Axes.FixedCollapsesNamedAxes | math_functions.py:42-56 | The corrected version collapses exactly the axes labelled axis0 and axis1, sizes the new axis by their antidiagonal count, and keeps every other axis, also when that count is 0. |
| Spectral.FftEinsumPlan | math_functions.py:133-150 | Succeeds exactly when every FFT label occurs in both inputs and in the output, every linear length `m+n-1` is at least 1, the output labels are valid, and `np.einsum` accepts the sizes of the two transformed operands. Each padded length is the least regular number at or above the linear length. Each FFT output axis is sliced back to its linear length. Every other output axis has the broadcast size of the label in the operands. |
| Spectral.LeastRegular | math_functions.py:142 | The least regular number at or above t, for t ≥ 1. This is the reference value for the `_next_regular` padding. |
| Spectral.TransformedKeepsOthers | math_functions.py:147-149 | `fftn` of an operand leaves every axis of a non-FFT label at its size. |
| Spectral.TransformedSetsSpectral | math_functions.py:139-149 | `fftn` sets the first axis of each FFT label (`lab.index(l)`) to that label's padded length. |
| Spectral.SharedSizesMustBroadcast | math_functions.py:147-149 | When `np.einsum` accepts the operands, each shared non-FFT label has equal sizes or size 1 on one side, and each non-FFT label repeated in one operand has one size there. |
| Spectral.MismatchedSharedLabelRejected | math_functions.py:147-149 | A shared non-FFT label of sizes 2 and 3 is rejected: labels [a, f] on shapes (2, 3) and (3, 3), with FFT label f. |
| Spectral.PadAll | math_functions.py:142 | Each padded length is the least regular number at or above the corresponding linear length. |
| Spectral.SlicedShapeOfPlan | math_functions.py:144-150 | The operands are transformed to lengths at least the linear lengths, then sliced. FFT axes then have their linear length, and every other axis has `np.einsum`'s size for the untransformed operands. |
| Spectral.SpectralEinsumSize | math_functions.py:147-150 | An FFT label has its padded length in both transformed operands, so the contraction keeps that length. |
| Spectral.OtherEinsumSize | math_functions.py:147-150 | A non-FFT label has the same `np.einsum` size before and after the transforms. |
| Spectral.FftnShape | math_functions.py:153-158 | `fftn(x, s, axes)` has shape `s` on the transformed axes and the input's shape elsewhere. |
| Spectral.SliceShape | math_functions.py:144-145 | Slicing to bounds gives, per axis, the smaller of the bound and the size. |
| Spectral.FftnGrad | math_functions.py:159-162 | On the transformed axes, the gradient's transform length is the larger of the input and output lengths. |
| Spectral.FftnGradHasInputShape | math_functions.py:160-162 | The gradient is sliced back to exactly the input's shape. |
| Special.Expm1d | math_functions.py:116-121 | At 0 the result is exactly 1 and at +inf it is +inf. At -inf it is 0 and NaN stays NaN. Any other finite x gets the quotient branch. |
| Special.Expm1dTaylorAtZero | math_functions.py:123-128 | The Taylor fallback at 0 is exactly 1. |
| Special.Expm1dTaylorIsPolynomial | math_functions.py:123-128 | The loop computes the degree-9 truncation of the series for (e^x-1)/x, i.e. the sum of x^k/(k+1)! for k from 0 to 9. |
| Special.TaylorLoopIsSum | math_functions.py:125-127 | The loop invariant: after term n the coefficient is x^(n-1)/n! and the accumulator is the partial sum. |
| Special.TransformedExpiSeriesIsExpansion | math_functions.py:97-102 | The loop computes the sum of (-1)^n·n!·x^n for n from 0 to 10. |
| Special.ExpiSeriesLoopIsSum | math_functions.py:99-101 | The loop invariant: after step n the coefficient is (-1)^n·n!·x^n and the accumulator is the partial sum. |
| Special.TransformedExpi | math_functions.py:82-95 | The elements are doubles, including ±inf and NaN. The call succeeds exactly when each absolute value is `>=` the next under IEEE comparison. The result is then computed element by element: the series value for finite x with |x| < 1/45, and the naive value otherwise. NaN and the infinities take the naive branch. |
| Special.AdjacentIsPairwise | math_functions.py:94 | The adjacent comparisons of the assertion order every pair of magnitudes. |
| Special.NaNPassesOnlyAlone | math_functions.py:94 | With two or more elements, an input that passes the assertion holds no NaN. A lone NaN passes, because `abs_x[:-1]` is empty. |
| Special.FGeTransitive | math_functions.py:94 | IEEE `>=` is transitive, since it is false whenever NaN is involved. |
| Special.SelectionIsPrefixSuffix | math_functions.py:84-95 | Under the sortedness assertion, the naive elements form a prefix and the series elements the matching suffix. |
| Special.ConcatenationIsPerElement | math_functions.py:95 | Concatenating naive results then series results equals applying the right branch to each element in place. |
| Special.Select | math_functions.py:84-85 | The boolean mask keeps only elements whose branch matches. |
| Decimal.ParseIntRoundTrip | parse_ms.py:229-230 | `int(str(i)) == i` for every integer. |
| Decimal.NatToDecimalValue | parse_ms.py:56 | `str(n)` for a natural number has digit value n. |
| Decimal.CanonicalRoundTrip | parse_ms.py:56 | A canonical digit string (no leading zero) is `str` of its value. |
| Decimal.ParseCanonical | parse_ms.py:56 | A name suffix is the canonical printing of some natural number exactly when the parse succeeds, and the parse inverts `str`. |
| Decimal.NatToDecimalInjective | parse_ms.py:56 | Distinct numbers print differently, so the `#k` names are distinct. |
| Decimal.IntegerLiteralsAreFloatLiterals | parse_ms.py:232-233 | A string that `int()` accepts is accepted by `float()` with the same value. |
| Decimal.UnsignedIntegerAsFloat | parse_ms.py:232-233 | `float()` of a digit string is its integer value. |
| Decimal.NegativeRoundTrip | parse_ms.py:229-230 | A negative integer literal reads back as that negative number. |
| Decimal.SplitJoinRoundTrip | parse_ms.py:45 | `" ".join(ws).split() == ws` for non-empty words without whitespace. |
| Decimal.SplitGivesWords | parse_ms.py:45 | `str.split()` yields only non-empty words without whitespace. |
| Decimal.SplitOnRoundTrip | parse_ms.py:345 | `sep.join(s.split(sep)) == s`. |
| Decimal.SplitOn | parse_ms.py:345 | `s.split(sep)` yields at least one piece, and no piece contains `sep`. |
| Decimal.StripLeft | parse_ms.py:345 | The result is a suffix of the input, preceded only by whitespace and not starting with whitespace. |
| Decimal.StripRight | parse_ms.py:345 | The result is a prefix of the input, followed only by whitespace and not ending with whitespace. |
| Numbers.Sub | parse_ms.py:266 | Float subtraction: finite operands subtract exactly, and NaN and the infinities follow IEEE rules (inf-inf is NaN). |
| Numbers.LeTotalOrder | parse_ms.py:60 | Float `<=` without NaN is a total order, as `bisect` needs. |
| Numbers.SubOfOrderedIsNonNegative | parse_ms.py:266-284 | If a ≤ b and b-a is not inf-inf, then b-a ≥ 0, so ordered epochs give non-negative `tau`. |
| MsParams.MakeParams | parse_ms.py:26-30 | `params_dict` holds every keyword argument and stores positional argument i under `str(i)`, with positional arguments winning a name clash. |
| MsParams.PositionalNamesDistinct | parse_ms.py:29-30 | Distinct positions get distinct keys. |
| MsParams.Get | parse_ms.py:218-227 | Non-strings are returned unchanged. `$name` is looked up in `params_dict`, and any other string is converted to the requested type. The call fails on a missing name, a failed conversion or a NaN result. |
| MsParams.PositionalParameterLookup | parse_ms.py:26-30 | `$i` resolves to the i-th positional constructor argument. |
| MsParams.GetPrintedInteger | parse_ms.py:229-233 | `getint(str(i))` is i, and `getfloat(str(i))` is i as a float. |
| MsCommands.Group | parse_ms.py:44-50 | Tokenising succeeds exactly when the first token opens a flag group and no token is a bare `-`. The result is then well formed: every flag starts with a letter, and no argument opens a group. |
| MsCommands.Step | parse_ms.py:45-50 | A `-<letter>` token opens a group named without the dash. Any other token, including a negative number, joins the current group. A value before any flag fails. |
| MsCommands.GroupThenUngroup | parse_ms.py:44-50 | Flattening the flag groups gives back the token list. |
| MsCommands.UngroupThenGroup | parse_ms.py:44-50 | Tokenising the flattened form of well-formed groups gives back the groups. |
| MsCommands.GroupAppendsArguments | parse_ms.py:45-50 | Appending a group's tokens appends exactly that group. |
| MsCommands.GetTime | parse_ms.py:38-41 | Non-event commands have time 0. An event's time is its first argument read as a float, and the call fails when that argument is missing or unreadable. The result is never NaN. |
| MsCommands.Times | parse_ms.py:59 | All times are computed exactly when every command's time is, and entry j is command j's time. |
| MsCommands.BisectRight | parse_ms.py:60 | `bisect_right`: every earlier key is not after t, and the key at the result (if any) is after t. |
| MsCommands.InsertElements | parse_ms.py:61-62 | `list.insert` at the bisection point puts the element there and shifts the rest right. |
| MsCommands.InsertKeepsSorted | parse_ms.py:60-62 | Inserting a later-arriving element at `bisect_right` keeps the list sorted by (time, arrival). |
| MsCommands.TaggedPermutationExtends | parse_ms.py:58-62 | After each insertion the sorted list is a permutation of the commands seen so far, with each one's time attached. |
| MsCommands.SortedCommandsAreStable | parse_ms.py:55-62 | The insertion loop yields a stable sort of the commands by time. |
| MsCommands.SortLoop | parse_ms.py:58-67 | After the loop, the commands are stably sorted. The population list is a time-sorted permutation of `#1..#k` (k = leaves + `es` count) with ties kept in creation order. |
| MsCommands.NamesExtend | parse_ms.py:64-67 | Inserting `#(len+1)` keeps the population names a permutation of `1..len+1`. |
| MsCommands.PopRanks | parse_ms.py:70 | `pop_by_order` maps each population at list position i to i+1, and only listed populations. |
| MsCommands.RankedDomain | parse_ms.py:56-70 | `pop_by_order` is defined on exactly `1..k` and takes values in `1..k`. |
| MsCommands.RankedInOrder | parse_ms.py:64-70 | `pop_by_order` is injective and orders populations by creation time, breaking ties by creation order. |
| MsCommands.LeavesKeepRanks | parse_ms.py:56-70 | With no negative event time, leaf population `#i` keeps rank i. |
| MsCommands.HeadIsI | parse_ms.py:68 | When the first command is `I`, it stays first after sorting exactly when no time is negative. |
| MsCommands.SortCommands | parse_ms.py:43-71 | Succeeds exactly when there is a first command `I`, a readable leaf count, all times readable and none negative. The result is a stable sort of the commands by time, with `pop_by_order` ranking populations by creation time and leaves i ↦ i. |
| MsCommands.SortedStartsWithI | parse_ms.py:51-68 | A successful sort keeps every command and starts with the original `-I` command. |
| MsCommands.FirstCommandStaysFirst | parse_ms.py:60-68 | In a stable sort with no negative times, a first command at time 0 stays first. |
| MsDemography.GetPop | parse_ms.py:82-87 | Non-strings are returned unchanged. `#k` succeeds exactly when it names a ranked population and returns its rank. Any other string goes to `getint`. |
| MsDemography.PopulationNameLookup | parse_ms.py:82-87 | Looking up `"#" + str(k)` returns `pop_by_order[k]`. |
| MsDemography.RootNode | parse_ms.py:93 | `self.roots[i]` succeeds exactly for an in-range key whose root is still live, and returns that root. |
| MsDemography.SetSizes | parse_ms.py:256-291 | Fails when the first epoch lacks N or alpha; any other failure is a negative size or time. On success each epoch keeps its own fields and fills missing ones from its predecessor. Its `tau` is the next epoch's time (the end time for the last) minus its own, and its N, `tau` and `N_top` are non-negative. |
| MsDemography.SetSizesNeedsOrderedEpochs | parse_ms.py:266-284 | Success implies the epoch times are non-decreasing and end no later than the end time. |
| MsDemography.SetSizesIdempotent | parse_ms.py:256-291 | Filling epochs that are already filled reproduces them. |
| MsDemography.RootLastsForever | parse_ms.py:243 | Closing the root's history at +inf gives its last epoch an infinite `tau`. |
| MsDemography.FillEpochsFacts | parse_ms.py:265-284 | The epoch loop: each output epoch is finished, keeps its input fields, and inherits missing N and alpha from its predecessor. |
| MsDemography.FillEpochsFails | parse_ms.py:283-284 | The only way the epoch loop fails is a negative size or time. |
| MsDemography.En | parse_ms.py:138-142 | `-en` appends to the live root's history an epoch at t with size N and no growth, and changes nothing else. |
| MsDemography.Eg | parse_ms.py:151-158 | `-eg` appends an epoch at t that sets only the growth rate, and changes nothing else. |
| MsDemography.GrowthOf | parse_ms.py:152-155 | A literal growth rate of 0 means no growth. A `$` reference, or any non-zero rate, is kept as given. |
| MsDemography.LeafGuard | parse_ms.py:168-171 | `-n`/`-g` are accepted only before any event, while the graph is just the leaves. After an event they fail. |
| MsDemography.N | parse_ms.py:167-178 | After an event `-n` fails. Otherwise it sets the single leaf epoch's N and leaves the graph alone. |
| MsDemography.G | parse_ms.py:180-194 | After an event `-g` fails. Otherwise it sets the single leaf epoch's growth rate and leaves the graph alone. |
| MsDemography.ForAll | parse_ms.py:144-149 | `-eN`/`-eG`/`-G` fail on an empty `roots` and otherwise apply the handler to every live root without changing the graph's shape. |
| MsDemography.SplitRoot | parse_ms.py:96-110 | The split appends a new root `len(roots)+1`. The old slot points at the new single-child node, with two new edges and one new event. The child gets split probabilities p and 1-p. The new nodes start at t, one inheriting the child's last N_top and alpha, the other with N=1. |
| MsDemography.Es | parse_ms.py:89-112 | `-es` fails unless t, p and the population resolve to a live root. Otherwise it finishes the child's sizes at t and performs the split, adding one live root. |
| MsDemography.SplitRootCounts | parse_ms.py:109-110 | A split raises the number of live roots by one. |
| MsDemography.JoinRoots | parse_ms.py:122-134 | The join puts the new pair node in slot j, empties slot i and leaves other slots alone. It adds two edges and one event. The new node starts at t with j's last N_top and alpha. |
| MsDemography.Ej | parse_ms.py:114-136 | `-ej` fails unless t and both populations resolve to live roots. Otherwise it finishes both sizes and performs the join, removing one live root. |
| MsDemography.JoinRootsCounts | parse_ms.py:132-134 | A join lowers the number of live roots by one. |
| MsDemography.I | parse_ms.py:203-216 | `-I` fails unless the state is empty. It succeeds exactly when `npop` equals the number of lineage counts and all counts read as integers. Roots are then i ↦ i for 1..npop, each leaf with one epoch at t=0, N=1 and no growth. |
| MsDemography.Leaves | parse_ms.py:213-215 | The leaf state has npop live roots `1..npop`, leaf data for each, and nothing else. |
| MsDemography.Dispatch | parse_ms.py:76 | Dispatch succeeds only for a known flag. Then `-es` adds a live root and an event, `-ej` removes a live root and adds an event, `-I` creates only live roots, and other flags keep the graph's shape. |
| MsDemography.DispatchOther | parse_ms.py:138-201 | The size and growth handlers never change roots, edges or events. |
| MsDemography.EventTime | parse_ms.py:77 | The time of a non-event is 0. An event's time is its first substituted argument. |
| MsDemography.Record | parse_ms.py:77-80 | Recording succeeds exactly when the event time is not before the previous one. It then updates `prev_time` and appends one log entry. |
| MsDemography.AddEvent | parse_ms.py:73-80 | Each event appends exactly one log entry with its flag, and time never goes backwards. |
| MsDemography.RunLogsEveryCommand | parse_ms.py:21-22 | Running the commands logs exactly their flags, in order. |
| MsDemography.RunTimeIncreases | parse_ms.py:78-79 | Over a run, `prev_time` never decreases. |
| MsDemography.RunKeepsTally | parse_ms.py:89-136 | Throughout a run there are twice as many edges as events, one event per `es`/`ej`, and one root slot per `ej` plus one. |
| MsDemography.LiveRoots | parse_ms.py:237 | The non-None roots, in key order. |
| MsDemography.ToNx | parse_ms.py:235-254 | Fails with no nodes, and fails unless exactly one root is live. Otherwise it closes that root's sizes at +inf and returns the nodes, edges, events and command log. |
| MsDemography.ToNxKeepsShape | parse_ms.py:235-254 | The final graph has known nodes, twice as many edges as events, one event per `es`/`ej`, and the full command log. |
| MsDemography.RunToGraph | parse_ms.py:18-23 | For a run that starts with `-I`, the graph's log lists the commands' flags in order. Edges, events and roots match the `es`/`ej` counts. |
| MsDemography.MsGraphIsWellFormed | parse_ms.py:18-23 | `_to_nx` on a command string yields a graph with known nodes and twice as many edges as events. It has one event per `es`/`ej`, and its log is the sorted commands' flags. |
| MsSfs.Segsites | parse_ms.py:345 | `int(line.split(":")[1])` succeeds exactly when there is a second piece that reads as an integer. |
| MsSfs.Haplotypes | parse_ms.py:349-355 | After the header there must be n lines, or n+1 with an empty last line, and the first n are kept. |
| MsSfs.PyIndex | parse_ms.py:360 | Python list indexing accepts `-len <= k < len` and wraps negative indices. |
| MsSfs.Digit | parse_ms.py:360 | `int(c)` of one character succeeds exactly on a digit, returning its value. |
| MsSfs.ColumnTotals | parse_ms.py:358-361 | Entry k of a column's count vector is the sum of the digits of the lines assigned to population k. The vector sums to the column's digit total. |
| MsSfs.ColumnSucceeds | parse_ms.py:359-360 | Counting a column succeeds exactly when every line has a digit there and a valid population index. |
| MsSfs.ColumnsSucceed | parse_ms.py:357-362 | Counting all columns succeeds exactly when each column counts and has a positive total. |
| MsSfs.ReadSfsShape | parse_ms.py:340-363 | Input not starting with `//` fails, and `segsites: 0` gives the empty counter. Otherwise the counter holds one key per column, each of length `num_pops` with a positive sum. |
| MsSfs.CountColumn | parse_ms.py:358-360 | The inner loop computes the column's count vector, or its first error. |
| MsSfs.CountColumns | parse_ms.py:357-362 | The column loop computes the multiset of count vectors, or the first error. |
| MsSfs.ReadEmpiricalSfs | parse_ms.py:340-363 | The imperative reader agrees with the functional definition on every input. |
| SfsStats.KeepSampled | momi/sfs_stats.py:13-15 | The sample-size map keeps exactly the populations with n > 0, with their sizes. |
| SfsStats.WeightVector | momi/sfs_stats.py:42-56 | The weight vector has n+1 entries. |
| SfsStats.OrderedWeights | momi/sfs_stats.py:44-56 | The multiply-then-divide loops compute entry a as falling(n-a, c0)·falling(a, c1)/falling(n, c0+c1). When c0+c1 > n, a division by zero makes the whole vector NaN. |
| SfsStats.WeightVanishes | momi/sfs_stats.py:49-52 | The weight is 0 whenever a < c1 or n-a < c0. |
| SfsStats.WeightMirror | momi/sfs_stats.py:49-52 | Swapping the counts of 0s and 1s mirrors the weight vector. |
| SfsStats.AncestralFactors | momi/sfs_stats.py:48-50 | After the first loop, entry a is falling(n-a, c0). |
| SfsStats.DerivedFactors | momi/sfs_stats.py:51-52 | After the second loop, entry a is falling(n-a, c0)·falling(a, c1). |
| SfsStats.DivideDown | momi/sfs_stats.py:53-54 | The division loop divides by falling(n, c0+c1), and hits a zero divisor exactly when c0+c1 > n. |
| SfsStats.ScaledWeights | momi/sfs_stats.py:53-56 | The divided numerators are the hypergeometric weights. |
| SfsStats.FlipSwapsCounts | momi/sfs_stats.py:35-36 | `1 - s` swaps the counts of 0s and 1s. |
| SfsStats.ReverseTwice | momi/sfs_stats.py:35-36 | Reversing a subsample twice gives it back. |
| SfsStats.DerivedWeights | momi/sfs_stats.py:41-56 | The weights exist exactly when every subsampled population is sampled. There is one vector per subsampled population, of length n+1. |
| SfsStats.WeightsDependOnCounts | momi/sfs_stats.py:46 | The weights depend only on each population's counts of 0s and 1s, not on their order. |
| SfsStats.OrderedProb | momi/sfs_stats.py:24-58 | Succeeds exactly when every subsampled population is sampled. Gives one tensor-product term, or two when folded, each with coefficient 1. |
| SfsStats.FoldAddsReversal | momi/sfs_stats.py:34-39 | The folded probability is the ordered probability plus that of the reversed subsample. |
| SfsStats.FoldForgetsOrientation | momi/sfs_stats.py:34-39 | Folding a reversed subsample gives the same value. |
| SfsStats.FoldedAgree | momi/sfs_stats.py:34-56 | Two subsamples with equal counts, or reversed counts, have equal folded probabilities. |
| SfsStats.SubsampleCounts | momi/sfs_stats.py:62-67 | The `count_1100` dictionary records one 1 for A and for B, and one 0 for C and for O if given, accumulating when names repeat. |
| SfsStats.AppendsCounted | momi/sfs_stats.py:62-67 | Appending bits one population at a time gives each population exactly the 1s and 0s drawn for it. |
| SfsStats.SubsampleKeys | momi/sfs_stats.py:62-67 | The dictionary has exactly the named populations as keys. |
| SfsStats.Count1100 | momi/sfs_stats.py:60-71 | Succeeds exactly when every named population is sampled. Folds (two terms) exactly when O is given. |
| SfsStats.F4 | momi/sfs_stats.py:79-94 | `f4` succeeds exactly when all named populations are sampled. |
| SfsStats.F4Value | momi/sfs_stats.py:73-94 | f4 is the BABA value minus the ABBA value. BABA is `count_1100(A, C, B, D)` and ABBA is `count_1100(B, C, A, D)`. |
| SfsStats.F4Antisymmetric | momi/sfs_stats.py:73-94 | Swapping A and B negates f4, because `abba(A, B, C, D)` is `baba(B, A, C, D)`. |
| SfsStats.F4PairSwap | momi/sfs_stats.py:73-94 | f4(C, D, A, B) equals f4(A, B, C, D). |
| SfsStats.F3Symmetric | momi/sfs_stats.py:96-104 | f3(A, B, O) equals f3(B, A, O). |
| SfsStats.F2Symmetric | momi/sfs_stats.py:106-113 | f2(A, B) equals f2(B, A). |
| SfsStats.ObservedWeights | momi/sfs_stats.py:309-315 | A population's vector is its derived weights, else all ones of length n+1 if it is sampled, else it is skipped. |
| SfsStats.MonoPair | momi/sfs_stats.py:316-321 | For an ascertained population the vectors are `[v0, 0, …]` and `[…, 0, v_last]` of v's length, and the call fails on an empty v. Otherwise both equal v. |
| SfsStats.MonoVectors | momi/sfs_stats.py:306-321 | The two maps are defined exactly on the populations that have a vector. |
| SfsStats.MonoVectorsContents | momi/sfs_stats.py:306-321 | For each population the stored pair is the mono pair of its vector, and the last listing of the population wins. |
| SfsStats.ExpectedRow | momi/sfs_stats.py:352-369 | Fails unless the row has n+1 entries. Otherwise it gives three rows of length n+1: the row itself last, and the all-ancestral and all-derived vectors first if the population is ascertained, else the row twice. |
| SfsStats.ExpectedRows | momi/sfs_stats.py:352-369 | Rows exist for all populations exactly when each one's row does. |
| SfsStats.MonoVectorsAgree | momi/sfs_stats.py:306-369 | The observed and expected statistics build the same monomorphic vectors for the same weights and ascertainment. |
| SfsStats.CorrectionValue | momi/sfs_stats.py:371-372 | `res[2] - res[0] - res[1]` is the full product minus the two monomorphic products. |
| SfsStats.ObservedInit | momi/sfs_stats.py:293-299 | Fails unless every population is known and the ascertained sample sizes sum to at least 2. Otherwise it keeps the populations with n > 0. |
| SfsStats.AscertainedTotalAppend | momi/sfs_stats.py:295-296 | The ascertained total over two lists is the sum of the totals. |
| SfsStats.ZipDictValues | momi/sfs_stats.py:294 | `dict(zip(pops, asc))` maps each population to its last listed flag. |
| Jackknife.FromChunks | momi/sfs_stats.py:482-484 | `est` is the block sum, and each jackknife value plus its block is `est`. |
| Jackknife.Resids | momi/sfs_stats.py:537-538 | Each jackknife value is `est` plus its residual. |
| Jackknife.FromChunksResids | momi/sfs_stats.py:482-484 | The residuals of `from_chunks(x)` are -x. |
| Jackknife.Plus | momi/sfs_stats.py:495-497 | Arrays add componentwise when their lengths match, or by broadcasting a length-1 side. Otherwise the addition fails. |
| Jackknife.Add | momi/sfs_stats.py:468-497 | A scalar is added to both `est` and every jackknife value. Two statistics add `est` and jackknife arrays componentwise. |
| Jackknife.Neg | momi/sfs_stats.py:502-503 | Negation negates `est` and every jackknife value. |
| Jackknife.NegTwice | momi/sfs_stats.py:502-503 | Negating twice is the identity. |
| Jackknife.SubSelf | momi/sfs_stats.py:505-507 | A statistic minus itself is zero throughout. |
| Jackknife.AddCommutes | momi/sfs_stats.py:495-497 | Adding statistics is commutative. |
| Jackknife.FromChunksSubtracts | momi/sfs_stats.py:482-507 | `from_chunks(x) - from_chunks(y)` equals `from_chunks(x - y)`. |

## Left out

- Evaluating tensors is not modelled: the dense products of `np.einsum`, the FFT values of `np.fft.fftn`/`ifftn`, and `scipy.special.expi`. The model keeps only labels, shapes and slices, because the values are floating-point numerics in foreign libraries.
- Special.Expm1d: for finite non-zero x, the value `np.expm1(x)/x` is a parameter (`quotient`), because it is a foreign floating-point call.
- Special.TransformedExpi: `transformed_expi_naive` is a parameter (`naive`), because it calls `expi` and `exp`. Finite elements are exact reals, so the series is not evaluated with double rounding or overflow.
- The floating-point rounding of the Taylor and asymptotic series is not modelled. The series are stated over exact reals.
- The autograd registration (`@primitive`, `defgrad`, `gradmaker`) is left out. Einsum.EinsumGradArgs and Einsum.TraceGradArgs model only the argument lists they build.
- Einsum.Einsum2Args: the integers come from enumerating a Python `set`, whose order is unspecified. The model fixes one enumeration, numbering labels in order of first occurrence, and Einsum.Numbering's last clause states that order. The source promises only the order-free facts, which are all that Einsum.RelabellingKeepsPattern and Einsum.TraceGradIsOuterProduct use: injective, onto `[0, #labels)`, and equal labels map to equal integers.
- `networkx` graph construction in `to_nx` is left out. The graph is a record of nodes, edges, events and the command log.
- The `size_history` objects (`ConstantHistory`, `ExponentialHistory`, `PiecewiseHistory`) are left out. The `N_top` of an exponential epoch is an abstract parameter (`GrowthTop`), and `node_data['model']` is not built.
- The unreachable `len(pieces) == 0` branch of `set_sizes` is left out. An empty size list already fails earlier, on the missing `N` of the dummy epoch.
- The exact exception types are not modelled. `IOError`, `AssertionError`, `KeyError`, `IndexError`, `NameError` and the undefined `kwargs` of `_n`/`_g` all become `MsError` failures.
- `add_event` logs `"-%s %s" % (flag, " ".join(map(str, args)))`. The model logs the flag with the substituted argument values, not the formatted string, because float formatting is not modelled.
- `simulate_sfs`, `read_tree_lens` and `NewickSfs` are left out: they spawn a subprocess, read environment variables, draw random seeds and use an external Newick parser.
- `str.isalpha` is modelled for ASCII letters only. `str.split()` treats only ASCII whitespace as separators. `int()`/`float()` accept only ASCII digits.
- `float()` results are exact reals. Rounding to the nearest double is not modelled.
- `tensor_prod` is abstract in both back-ends (`_expected_sfs_tensor_prod`, `configs.count_subsets`). So is the division by `denom`. SfsStats.OrderedProb returns the weighted terms that are passed to `tensor_prod`, not the divided value.
- `ObservedSfsStats.tensor_prod` is modelled only up to the mono vectors it builds. The `freqs_matrix.T.dot(...)` product is left out.
- `pairwise_diffs`, `singleton_probs`, `pattersons_d`, `greens_f`, `f4_ratio`, `sd`, `z_score`, `var`, `cached_property` and `ModelFitStats` are left out. They do plotting, floating-point square roots, ratios of abstract tensor products, or data loading.
- `JackknifeStat.__mul__`, `__truediv__`, `__pow__`, `__rpow__` and `JackknifeGoodnessFitStat` are left out. They are floating-point arithmetic outside the additive bookkeeping.
- Jackknife.Plus: numpy broadcasting is modelled for 1-D arrays only (equal lengths, or one side of length 1).
- `setup.py` and the tests are left out. The tests depend on simulation, file I/O and external demography code.

## Findings

| source | as written | input that shows it | evidently intended | confidence | as-written member | corrected member |
|---|---|---|---|---|---|---|
| math_functions.py:44-54 | The second transposition uses `idx1`, the position of `axis1` before the first transposition. When `axis1` sat at position 0, the first transposition has moved it to `idx0`. | labels `[b, x, a]`, `axis0 = a`, `axis1 = b`: axes `a` and `x` are collapsed, and `b` survives in the output | Collapse exactly the axes labelled `axis0` and `axis1`, reading `axis1`'s position after the first swap | high (not executed) | Axes.AxisOneAtFrontSurvives | Axes.FixedCollapsesNamedAxes |
| math_functions.py:47-54 | With no antidiagonal (collapsed sizes (0,0), (1,0) or (0,1)), `np.array([])` is a 1-D array of shape `(0,)`, but the label list still holds `new_axis` plus every remaining label. | shape (0, 0, 5), labels `[a, b, c]`, `axis0 = a`, `axis1 = b`: shape `(0,)` with labels `[new, c]` | An empty array of shape `(0, 5)` whose axes match the labels | medium (not executed) | Axes.EmptyAntidiagonalsDropAxes | Axes.FixedCollapsesNamedAxes |
