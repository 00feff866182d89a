# aceso in Dafny

A model of the core of *aceso*, a small Python library for gravity-based measures of potential
spatial accessibility, with proofs about it.

The library has two parts:

- **Decay functions** (`aceso/decay.py`). Each turns a distance into a weight in [0, 1]. There are
  four kernels: uniform, raised cosine, Gaussian and parabolic (Epanechnikov). Lookup is by a
  case-insensitive name, and "epanechnikov" is an alias of "parabolic".
- **Gravity model** (`aceso/gravity.py`). A `GravityModel` binds the decay function's shape
  parameter from `decay_params`. A missing parameter is an error; an unknown one produces a
  warning. Given a distance matrix (rows are demand points, columns are supply points), the model
  computes:
  - the *demand potential* of every supply point: the NaN-skipping column sum of demand × decay,
    optionally multiplied by the Huff interaction probabilities;
  - its inverse, with the infinite inverse of a zero potential replaced by 0;
  - the *accessibility score* of every demand point: the NaN-skipping row sum of
    supply × inverse × decay^exponent (× Huff).

  `TwoStepFCA` and `ThreeStepFCA` are the two preset configurations.

Modules:

| file | module | contents |
|---|---|---|
| `outcome.dfy` | `Outcome` | `Option` and `Result` |
| `numeric.dfy` | `Numeric` | `Num`: float64 values as exact reals plus +inf, -inf and NaN. It gives the IEEE rules for `+ - * /`, `maximum`, `minimum`, `clip`, powers and `nansum` |
| `sums.dfy` | `Sums` | how `nansum` reduces to real sums; scaling, monotonicity and exchanging a double sum |
| `decay.dfy` | `Decay` | the four kernels, the name registry and lookup, and their closed forms, bounds, monotonicity and test vectors |
| `binding.dfy` | `Binding` | parameter binding: the source's procedure and a corrected one |
| `gravity.dfy` | `Gravity` | engine construction, the Huff weights, the potentials, the inverses and the scores |
| `accessibility.dfy` | `Accessibility` | nonnegativity, stochastic Huff rows, independence from columns of zero potential, and the 2SFCA test example |
| `conservation.dfy` | `Conservation` | supply conservation: the demand-weighted total score is at most the reached supply, and equal to it with exponent 1 |

The transcendental functions `np.exp`, `np.cos` and `math.pi` are an abstract parameter,
`Decay.Elementary`. `Decay.Sound` states the facts about them that the lemmas use.
`Decay.SoundWitness` exhibits functions meeting all of those facts, so no lemma that requires
`Sound` is vacuous.

## Model

| member | source | states |
|---|---|---|
| Decay.UniformIsIndicator | aceso/decay.py:61-69 | The uniform weight is always 1 or 0. It is 1 exactly when the distance is a finite value at most the scale, or -inf. NaN and +inf weigh 0 |
| Decay.UniformTestVector | tests/test_decay.py:32-36 | Scale 2 on the distances 0, 1, 100, NaN and +inf gives 1, 1, 0, 0, 0 |
| Decay.ParabolicClosedForm | aceso/decay.py:21-24 | NaN stays NaN and either infinity weighs 0. A finite distance weighs max(1 - (d/scale)^2, 0). With scale 0, distance 0 gives NaN and any other distance gives 0 |
| Decay.ParabolicBounds | aceso/decay.py:8-24 | For a nonzero scale the weight lies in [0, 1] or is NaN, and it is finite unless the distance is NaN. A finite distance weighs 0 exactly when abs(d) >= abs(scale) |
| Decay.ParabolicAtFraction | aceso/decay.py:12-19 | At the distance q·scale, for 0 <= q <= 1, the weight is 1 - q^2 |
| Decay.ParabolicSamples | aceso/decay.py:12-19 | Every tabulated pair in the docstring (0→1, 0.25→0.9375, 0.5→0.75, 0.75→0.4375, 1→0) satisfies 1 - q^2 = value with q in [0, 1] |
| Decay.ParabolicOnTable | aceso/decay.py:12-19 | For every nonzero scale, the parabolic kernel evaluated at each tabulated fraction of the scale gives exactly the tabulated weight |
| Decay.ParabolicTestVector | tests/test_decay.py:17-20 | Scale 2 on the test distances gives 1, 0.75, 0, NaN, 0 |
| Decay.GaussianClosedForm | aceso/decay.py:41 | NaN stays NaN and either infinity weighs 0. A finite distance weighs exp(-(d^2 / (2 sigma^2))). With sigma 0, distance 0 gives NaN and any other distance gives 0 |
| Decay.GaussianAtZeroAndPositive | aceso/decay.py:27-41 | For nonzero sigma the weight at distance 0 is 1, and every finite distance weighs a value in (0, 1] |
| Decay.GaussianTestVector | tests/test_decay.py:22-25 | Sigma 2 on the test distances gives 1 at distance 0, NaN for NaN and 0 for +inf |
| Decay.RaisedCosineClosedForm | aceso/decay.py:57-58 | NaN stays NaN, and scale 0 gives NaN everywhere. For a positive scale, a finite distance weighs (1 + cos(c/scale · pi))/2, where c is the distance clamped into [0, scale] |
| Decay.RaisedCosineSaturates | aceso/decay.py:57 | A distance at or beyond the scale weighs as much as the scale itself, and one at or below 0 weighs as much as 0 |
| Decay.RaisedCosineLandmarks | aceso/decay.py:48-55 | For a positive scale the weights at 0, scale/2 and scale are 1, 0.5 and 0 |
| Decay.RaisedCosineNegativeScale | aceso/decay.py:57-58 | With a negative scale, every non-NaN distance weighs 0 |
| Decay.RaisedCosineBounds | aceso/decay.py:44-58 | The weight lies in [0, 1] or is NaN. For a nonzero scale it is finite unless the distance is NaN, and +inf weighs 0 |
| Decay.RaisedCosineTestVector | tests/test_decay.py:27-30 | Scale 2 on the test distances gives 1, 0.5, 0, NaN, 0 |
| Decay.WeightsInUnitInterval | aceso/decay.py:8-69 | Every kernel's weight lies in [0, 1] or is NaN. For a nonzero parameter it is finite unless the distance is NaN, and +inf weighs 0. A NaN distance gives NaN under every kernel except uniform |
| Decay.DecayNonincreasing | aceso/decay.py:1 | For a positive parameter and 0 <= x <= y, every kernel gives y a finite weight no larger than x's: demand drops off as distance grows |
| Decay.LookupTransform | aceso/decay.py:72-83 | Lookup succeeds exactly when the lower-cased name is a registered alias, and the kernel found is registered under that alias. A failure carries the lower-cased key |
| Decay.CatalogueHoldsTheAliases | aceso/decay.py:77-83 | The registry holds a name exactly when some kernel has it as an alias, and it maps the name to that kernel |
| Decay.LookupIgnoresCase | aceso/decay.py:72-74 | A name and its lower-cased form give the same lookup result |
| Decay.LookupExamples | aceso/decay.py:72-83 | "EPANECHNIKOV" spelt with the Kelvin sign resolves to the parabolic kernel and "Gaussian" to the Gaussian kernel. "Cosine" fails with key "cosine" |
| Decay.SoundWitness | aceso/decay.py:41-58 | The facts assumed of exp, cos and pi hold together for one concrete choice of functions |
| Binding.BindAsWritten | aceso/gravity.py:77-125 | Binding fails exactly when the shape parameter is absent, and the error names it. Otherwise every supplied name in the full signature is bound to its supplied value; this includes `distance_array`. The warnings are the supplied names outside the signature, each once |
| Binding.Bind | aceso/gravity.py:90-125 | The corrected binding. It fails exactly when the shape parameter is absent. Otherwise it binds only the shape parameter, to a value that was supplied, and warns once about each of the other supplied names |
| Binding.Retained | aceso/gravity.py:95-98 | The bound map holds exactly the supplied names that are accepted, each with its supplied value |
| Binding.Rejected | aceso/gravity.py:114-120 | The warned names are exactly the supplied names that are not accepted, without repeats, and there are no more of them than pairs supplied |
| Binding.WarningsCount | aceso/gravity.py:114-120 | When exactly one supplied name is accepted, there is one warning for each of the other supplied names |
| Binding.CallBound | aceso/gravity.py:122-123 | Calling the bound transform with the distance matrix succeeds exactly when `distance_array` is not also bound by keyword. On success it gives the kernel's weight at the bound parameter |
| Binding.BoundTransformCallable | aceso/gravity.py:122-125 | Every binding that the corrected procedure produces can be called |
| Binding.BindersAgreeWithoutDistance | aceso/gravity.py:95-98 | The source's binding and the corrected one give the same result whenever `decay_params` does not name `distance_array` |
| Binding.LeadingArgumentBoundAsWritten | aceso/gravity.py:95-98 | With `{distance_array: 1, scale: 2}`, the source's binding binds both names with no warning, and the call then fails. The corrected binding warns about `distance_array` and binds only the scale |
| Binding.ExtraAndMissingParameters | tests/test_gravity.py:37-49 | A Gaussian given sigma and `extra_param` binds sigma and warns about `extra_param`. Without sigma it fails, naming sigma |
| Gravity.NewEngine | aceso/gravity.py:44-75 | An unknown name fails first, with the lower-cased key. A missing shape parameter fails next, naming it. Otherwise the engine uses the resolved kernel with a supplied parameter value, keeps the Huff flag and exponent, and warns about exactly the other supplied names |
| Gravity.TwoStepFCA | aceso/gravity.py:206-219 | Always succeeds: the uniform kernel with scale = radius, no Huff step, exponent 1 and no warnings |
| Gravity.ThreeStepFCA | aceso/gravity.py:222-258 | Succeeds exactly when the corresponding Huff-free engine does. The result has the Huff step switched on and is otherwise that engine, with the same warnings |
| Gravity.HuffWeight | aceso/gravity.py:199-202 | A positive finite distance weighs 1/d, distance 0 weighs 10^8, +inf weighs 0 and NaN stays NaN. A distance-like input gives a nonnegative weight |
| Accessibility.HuffRowStochastic | aceso/gravity.py:185-203 | For distance-like rows, every interaction probability lies in [0, 1] or is NaN. A row with a finite distance has NaN-skipping sum 1. A row without one is all NaN |
| Gravity.InverseOf | aceso/gravity.py:161-162 | A zero potential and either infinity map to 0, a nonzero finite potential maps to 1/p, and NaN stays NaN. The result is never infinite |
| Gravity.Potentials | aceso/gravity.py:172-183 | Entry j is the NaN-skipping sum of column j of demand × decay (× Huff). The partner lemmas below prove these sums nonnegative (`Accessibility.PotentialsNonnegative`) and equal to the real column totals (`Conservation.PotentialsAreReal`) |
| Accessibility.PotentialsNonnegative | aceso/gravity.py:172-183 | With finite nonnegative demand, every potential is a finite nonnegative value; without the Huff step for any distances, with it when every distance is nonnegative, +inf or NaN |
| Conservation.PotentialsAreReal | aceso/gravity.py:172-183 | With finite decay weights and finite demand, and no Huff step, potential j is the real sum over i of demand_i · w_ij |
| Gravity.Scores | aceso/gravity.py:157-170 | Score i is the NaN-skipping row sum of supply × inverse × decay^exponent (× Huff). The partner lemmas below prove the scores nonnegative, independent of the supply at unreached points, equal to their real form, and conserving supply |
| Accessibility.ScoresNonnegative | aceso/gravity.py:157-170 | With finite nonnegative demand and supply, every score is a finite nonnegative value; with the Huff step on, this needs every distance to be nonnegative, +inf or NaN |
| Accessibility.ZeroPotentialColumnsIgnored | aceso/gravity.py:161-163 | Changing the supply of supply points whose potential is 0 leaves every score unchanged |
| Accessibility.PowOfWeight | aceso/gravity.py:164-167 | A weight raised to a natural power is still a weight. From the first power on it is no larger, and NaN stays NaN |
| Conservation.ScoresAreReal | aceso/gravity.py:157-170 | With finite weights, demand and supply, and no Huff step, score i is the real sum over j of s_j · inv(P_j) · w_ij^n |
| Conservation.RealConservation | aceso/gravity.py:64-71 | Over real matrices, the demand-weighted total of the scores is at most the total supply of the columns with nonzero potential. It is equal to that total when the exponent is 1 |
| Conservation.SupplyConservation | aceso/gravity.py:64-71 | With no Huff step, no NaN distance, finite nonnegative demand and supply, and a nonzero kernel parameter (any parameter for uniform), the demand-weighted total of the scores is at most the reached supply. It is equal to it when the exponent is 1. For larger exponents the docstring promises a smaller total; the model proves only "at most", because with weights that are all 0 or 1 the total stays equal |
| Conservation.WeightsFinite | aceso/gravity.py:165 | With no NaN distance and a nonzero parameter, or the uniform kernel, every decay weight of the matrix is a finite value in [0, 1] |
| Gravity.CalculateAccessibilityScores | aceso/gravity.py:152-155 | One score per demand point. The partner `Accessibility.DefaultScoresNonnegative` shows that the all-ones defaults give finite nonnegative scores |
| Accessibility.DefaultScoresNonnegative | aceso/gravity.py:152-170 | When demand and supply are omitted, both default to ones and every score is finite and nonnegative; with the Huff step on, this needs every distance to be nonnegative, +inf or NaN |
| Accessibility.TwoStepPotentials | tests/test_gravity.py:51-61 | 2SFCA with radius 6 on the sample matrix gives potentials [1, 2] |
| Accessibility.TwoStepScores | tests/test_gravity.py:63-70 | 2SFCA with radius 6 on the sample matrix gives scores [1.5, 0.5, 0] |
| Accessibility.TwoStepExample | tests/test_gravity.py:15-70 | `TwoStepFCA(6)` builds the expected engine with no warnings. On the sample matrix it gives potentials [1, 2] and scores [1.5, 0.5, 0] |

## Left out

- Numeric.Num: finite floats are exact reals. IEEE rounding, overflow and underflow, and signed
  zero are not modelled; 1/0 is +inf, never -inf.
- Gravity.Engine: the suboptimality exponent is a natural number; the source accepts any float.
- Decay.Elementary: `np.exp`, `np.cos` and `math.pi` are abstract. `Decay.Sound` assumes only
  these facts:
  - exp(0) = 1, 0 < exp(x) <= 1 for x <= 0, and exp is nondecreasing;
  - cos lies in [-1, 1], with cos(0) = 1, cos(pi/2) = 0 and cos(pi) = -1;
  - cos is nonincreasing on [0, pi];
  - pi > 0.
- Decay.GaussianTestVector: the value 0.88249690258459546 at distance 1 is not derived, because
  exp is abstract.
- Decay.GaussianTestVector: at distance 100 the model's weight is exp(-1250) > 0. The float result
  underflows to 0.0, and without rounding the model cannot show that.
- Decay.Transform: shape parameters are finite reals, so a parameter of ±inf or NaN, such as
  `TwoStepFCA(float('inf'))`, cannot be expressed.
- Gravity.Choice: a callable decay function can only be one of the four catalogued kernels.
  Arbitrary Python callables and their signatures are not modelled.
- Gravity.NewEngine: warnings are returned as a list of parameter names rather than issued
  through `warnings.warn`, and their message text is not modelled.
- Binding.BindAsWritten: only the Python 3 branch (`inspect.signature`) is modelled. The Python 2
  branch uses `getargspec` and computes the same sets for these functions.
- Decay.LookupTransform: `str.lower` is exact for ASCII letters and the Kelvin sign, the only
  characters whose lower case is an ASCII letter. Other upper-case non-ASCII characters are kept
  as they are, so the key of a failed lookup can differ from Python's for such names; whether a
  lookup succeeds is exact.
- Gravity.Rect: the matrix carries its column count explicitly, because a sequence of zero rows
  cannot record numpy's `shape[1]`.
- Decay.UniformDecay: follows the code, which maps a NaN distance to weight 0. The module
  documents transforms as demand dropoffs and the test marks this with a FIXME ("Leave np.nan
  unchanged"), but the code is what is modelled.
- Conservation.SupplyConservation: stated only without the Huff step and without NaN distances.
  With Huff weights the per-row probabilities change the column totals, and NaN entries drop out
  of the sums. A parabolic or Gaussian kernel with parameter 0 is also excluded: there a zero
  distance weighs NaN (which the sums skip) and every other distance weighs 0, so both sides are
  0 in that degenerate case.
- Binding.Bind and Gravity.NewEngine: `decay_params` is a sequence of pairs with distinct names,
  as a dict is; Python's dict insertion order gives the order of the warnings.
- Array shapes, broadcasting and numpy's reshaping are replaced by explicit rows and columns. The
  preconditions ask for one demand per row and one supply per column. This excludes the lengths
  numpy rejects, and also the ones it broadcasts: a length-1 demand spread over every row
  (aceso/gravity.py:180), a length-1 supply spread over every column, and a longer supply against
  a one-column matrix (aceso/gravity.py:163).

## Findings

| source | as written | input that shows it | evidently intended | confidence | as-written member | corrected member |
|---|---|---|---|---|---|---|
| aceso/gravity.py:95-98 | `valid_params` keeps every supplied name that appears in the decay function's full signature, so the leading `distance_array` counts as valid. It is bound by keyword and no warning is raised; every later `self.decay_function(distance_matrix)` then raises a TypeError (multiple values for `distance_array`) | `GravityModel('uniform', {'distance_array': 1.0, 'scale': 2.0})` | only the parameters after the distance argument (those `missing_params` checks, line 92) are bindable, and `distance_array` is warned about like any unknown name | not executed | Binding.BindAsWritten, Binding.LeadingArgumentBoundAsWritten, Binding.CallBound | Binding.Bind, Binding.BoundTransformCallable, Binding.BindersAgreeWithoutDistance |

`Gravity.NewEngine` binds with the corrected `Binding.Bind`. The two procedures give the same
result whenever `decay_params` does not name `distance_array` (`Binding.BindersAgreeWithoutDistance`).
