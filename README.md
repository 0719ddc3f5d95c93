# NS-PCM measurement core in Dafny

This project models the measurement core of the NS-PCM toolkit. The toolkit
takes a periodic 3D flow snapshot on an n×n×n grid (a vorticity field ω, a
velocity field u, or both) and measures the sublevel sets {|ω| < δ}. It
reports:

- the sublevel measure m(δ);
- the gradient-load integrals Q1(δ) and Q2(δ);
- the strain residue R(δ) (only when u is given);
- a Fisher-like schedule J(ε);
- a one-shot saturated diagnostic S(ε₀).

It then fits power laws m(δ) ≈ C·δ^α in log-log space.

Every grid field is a flat sequence of N = n³ exact `real` values. A vector
field holds three such sequences and a tensor field holds nine. The
numerical primitives are parameters that carry only the laws the proofs use
(module `Numerics`):

- the spectral derivative `Deriv`, which preserves length (it is also
  linear with commuting mixed partials where a lemma says so);
- `sqrt`, which is the non-negative square root on non-negative reals;
- the symmetric eigen-solver `Eigvalsh`;
- `pow10` for `np.logspace`;
- `ln` and `exp` for the fit.

Modules:

- `Wrappers`: `Option`.
- `Numerics`: the oracles, their laws, and scalar lemmas.
- `Grid`: the field types, the gradient layout, and the nine-term squared
  norm.
- `Reductions`: sums, means, counts, masked sums, dot products, min and max.
- `Spectral`: `pcm/spectral.py`. The index algebra of `grad_vector`, `curl`
  and `strain`, the operator-norm reduction, and the `grad_omega_norm2`
  accumulation.
- `Fields`: `pcm/fields.py`. The magnitude |ω|, the regularised direction
  ξ = ω/r, the gradient energy G, and its saturation Ψ = G/(1+G).
- `Measurements`: `pcm/measurements.py`.
  - `Measure` is `compute_all` as a function.
  - `ComputeAll` is the method with the sublevel loop (`SublevelCurves`)
    and the Fisher loop (`FisherSchedule`), and it is proved equal to
    `Measure`.
  - The lemmas about `Measure` state what the pipeline promises.
- `Fit`: `pcm/fit.py`. Point selection, the least-squares line in closed
  form on the logged values, R², and the automatic fit range.

The least-squares line follows `np.linalg.lstsq` on the design matrix
[x, 1]:

- When the x values are not all equal, it is the unique solution: slope
  Sxy/Sxx and an intercept through the centroid.
- When all x are equal, the matrix has rank one and lstsq returns the
  minimum-norm solution, mean(y)·(x₀, 1)/(x₀² + 1). `Fit.Ols` returns exactly
  that, and `Fit.OlsRankDeficient` proves it minimal.

## Model

| member | source | states |
|---|---|---|
| Measurements.DefaultConfig | pcm/measurements.py:16-20 | the default configuration has 28 relative deltas, 18 relative eps values, M = 1 and the given L |
| Measurements.DefaultConfigIncreasing | pcm/measurements.py:18-19 | with a lawful power of ten, both default schedules are strictly positive and strictly increasing |
| Measurements.LogspaceIncreasing | pcm/measurements.py:18-19 | `logspace` over an increasing exponent range is strictly positive and strictly increasing |
| Measurements.ScaleOf | pcm/measurements.py:62-63 | the scale is positive: it is the RMS when that is positive and 1.0 otherwise |
| Measurements.Scaled | pcm/measurements.py:64 | each absolute threshold is its relative threshold times the scale, and the length is kept; `ScaledMonotone` proves order is kept and `SublevelThresholds` ties it to the reported delta_abs |
| Measurements.SublevelMask | pcm/measurements.py:80 | the mask holds at exactly the points where the magnitude is below delta; `SublevelMaskNested` proves the masks nest as delta grows |
| Measurements.SublevelMeasure | pcm/measurements.py:81 | m(delta) is a fraction: 0 <= m <= 1 |
| Measurements.SublevelMaskNested | pcm/measurements.py:79-80 | for d1 <= d2, every point in the d1 sublevel set is in the d2 set |
| Measurements.MeasureOfZeroField | pcm/measurements.py:80-81 | on an all-zero magnitude, every positive threshold gives m = 1 |
| Measurements.MeasureMonotone | pcm/measurements.py:79-81 | m is non-decreasing in delta |
| Measurements.IntegralMonotone | pcm/measurements.py:83-85 | the sublevel integral of a non-negative density with dV >= 0 is non-negative and non-decreasing in delta |
| Measurements.FisherTerms | pcm/measurements.py:102-103 | the integrand grad_om2/(om^2+eps^2) has one term per grid point |
| Measurements.FisherTermsOrdered | pcm/measurements.py:101-103 | for 0 < e1 <= e2, each term is non-negative and the e2 term is at most the e1 term |
| Measurements.FisherMonotone | pcm/measurements.py:99-103 | J(eps) is non-negative and non-increasing in positive eps |
| Measurements.FisherNonneg | pcm/measurements.py:103 | J(eps) >= 0 for any non-zero eps when dV >= 0 |
| Measurements.SqrtField | pcm/measurements.py:83 | the gradient magnitude is non-negative and squares back to grad_om2 |
| Measurements.Residue | pcm/measurements.py:86-89 | R(delta) is present exactly when the strain norm is, and then it is the sublevel integral of the strain norm; `VelocityDecidesResidue` ties presence to u and `ResidueCurveMonotone` proves the curve is all-or-none and monotone |
| Measurements.SublevelCurves | pcm/measurements.py:74-89 | the loop yields m, Q1, Q2 and R, each with one entry per absolute threshold, and each entry is the sublevel quantity at that threshold |
| Measurements.FisherSchedule | pcm/measurements.py:98-103 | the loop yields one J per absolute eps, and each is the Fisher integral at that eps |
| Measurements.Points | pcm/measurements.py:34 | a positive grid side gives a positive point count n^3 |
| Measurements.VorticityOf | pcm/measurements.py:27-32 | the vorticity used is a well-formed vector field on the grid (the given omega, else curl u) |
| Measurements.GradLoad | pcm/measurements.py:53 | the gradient load grad_om2 (the squared gradient norm of omega) is a non-negative field on the grid |
| Measurements.StrainNormOf | pcm/measurements.py:66-71 | the strain norm is present exactly when u is given, and it is then a non-negative field on the grid |
| Measurements.Squares | pcm/measurements.py:40 | om**2 is taken pointwise; `ZeroMeanSquare` and `RmsNonneg` prove its mean is 0 on a zero field and the RMS is non-negative |
| Measurements.CellVolume | pcm/measurements.py:35-37 | dV = (L/n)^3 is non-negative when L is |
| Measurements.ScaledNonzero | pcm/measurements.py:101 | scaling non-zero eps values by a non-zero scale keeps them non-zero |
| Measurements.SublevelOf | pcm/measurements.py:91-96 | all six sublevel lists have the length of the relative thresholds |
| Measurements.FisherOf | pcm/measurements.py:104-106 | each absolute eps is the relative one times the scale and is non-zero; the three Fisher lists have the schedule's length |
| Measurements.SaturatedLoad | pcm/measurements.py:109-113 | for eps0 != 0, G >= 0 and 0 <= Psi < 1 at every point |
| Measurements.Vorticity | pcm/measurements.py:27-32 | the vorticity step returns the given omega, or else curl u |
| Measurements.StrainNorm | pcm/measurements.py:66-71 | the strain step returns the operator norm of strain(u) when u is given, and None otherwise |
| Measurements.OneShot | pcm/measurements.py:108-115 | the one-shot step computes eps0, S(eps0) and the means of Psi and G as `NsPcmOf` defines them |
| Measurements.ComputeAll | pcm/measurements.py:22-117 | the imperative pipeline with its two loops returns exactly `Measure(s, c, b)` |
| Measurements.RmsNonneg | pcm/measurements.py:39-40 | the reported omega_rms is non-negative |
| Measurements.SublevelThresholds | pcm/measurements.py:62-96 | delta_rel is the configured deltas; delta_abs is those times the scale (omega_rms if positive, else 1.0); m, Q1, Q2 and R have one entry per delta |
| Measurements.FisherThresholds | pcm/measurements.py:98-109 | eps_rel is the configured schedule; eps_abs is it times the scale; J has one entry per eps; eps0_abs = 1e-3 times the scale |
| Measurements.DefaultLengths | pcm/measurements.py:18-19 | under the default configuration, the sublevel lists have 28 entries and the Fisher lists have 18 |
| Measurements.MeasuresAreFractions | pcm/measurements.py:80-81 | every reported m(delta) lies in [0, 1] |
| Measurements.ScaledMonotone | pcm/measurements.py:64 | a positive scale keeps non-decreasing thresholds non-decreasing |
| Measurements.ScaledIncreasing | pcm/measurements.py:64 | a positive scale keeps positive, strictly increasing thresholds positive and strictly increasing |
| Measurements.AbsoluteThresholdsIncreasing | pcm/measurements.py:62-101 | positive, strictly increasing relative deltas and eps give reported delta_abs and eps_abs that are positive and strictly increasing |
| Measurements.DefaultAbsoluteIncreasing | pcm/measurements.py:16-20 | with the default schedules, every reported delta_abs and eps_abs is positive and both lists are strictly increasing |
| Measurements.SublevelOfMeasureMonotone | pcm/measurements.py:79-81 | for ordered thresholds, the m list is non-decreasing |
| Measurements.IntegralCurveMonotone | pcm/measurements.py:83-85 | a curve of sublevel integrals of a non-negative density over ordered thresholds is non-negative and non-decreasing |
| Measurements.ResidueCurveMonotone | pcm/measurements.py:86-89 | the R curve is present at all thresholds or at none, and when present it is non-negative and non-decreasing |
| Measurements.SublevelMonotone | pcm/measurements.py:79-89 | for non-decreasing deltas, m is non-decreasing; for L >= 0, Q1, Q2 and R are non-negative and non-decreasing |
| Measurements.ZeroVorticity | pcm/measurements.py:62-101 | when the resolved vorticity (the given omega, else the curl of u) is all zero: omega_rms = 0, delta_abs == delta_rel, eps_abs == eps_rel, and m = 1 at every positive delta |
| Measurements.ZeroRms | pcm/measurements.py:39-40 | an all-zero resolved vorticity (the given omega, else the curl of u) gives omega_rms = 0 |
| Measurements.ZeroMeanSquare | pcm/measurements.py:40 | the mean of om**2 over a zero field is 0 |
| Measurements.SublevelMeasures | pcm/measurements.py:79-81 | each reported m is the sublevel measure, at the matching delta_abs, of the magnitude of the resolved vorticity (the given omega, else the curl of u) |
| Measurements.ZeroMagnitude | pcm/fields.py:5-6 | the magnitude of an all-zero vector field is zero everywhere |
| Measurements.VelocityDecidesResidue | pcm/measurements.py:67-89 | without u, every R entry is None, the notes are exactly the one missing-velocity note, and m, Q1, Q2 and J keep full length; with u, every R entry is present and there is no note |
| Measurements.VorticityFromVelocity | pcm/measurements.py:30-32 | with only u, omega is curl u component by component, and no note is added |
| Measurements.FisherOfDecreasing | pcm/measurements.py:99-106 | J is non-negative, and it is non-increasing along a positive, non-decreasing schedule |
| Measurements.FisherDecreasing | pcm/measurements.py:98-106 | for L >= 0, the reported J is non-negative, and it is non-increasing for a positive non-decreasing eps_schedule |
| Measurements.NsPcmOfBounds | pcm/measurements.py:109-115 | eps0 = 1e-3 times the scale and is positive; mean Psi is in [0, 1); mean G >= 0; S(eps0) >= 0 when dV >= 0 |
| Measurements.NsPcmBounds | pcm/measurements.py:108-115 | the reported eps0_abs > 0, 0 <= mean_Psi < 1, mean_G >= 0, and S_eps0 >= 0 for L >= 0 |
| Fields.Mag2Nonneg | pcm/fields.py:6 | the pointwise sum of squared components is non-negative |
| Fields.OmegaMagnitude | pcm/fields.py:5-6 | the magnitude is non-negative, and its square is the pointwise sum of the three squared components |
| Fields.XiEpsilon | pcm/fields.py:8-13 | r > 0 with r^2 = mag2 + eps^2 (mag2 being the squared magnitude of omega), and xi times r gives back omega in every component |
| Fields.RegularisedNorm | pcm/fields.py:10-11 | r = sqrt(mag2 + eps^2) is positive and squares back to mag2 + eps^2 |
| Fields.DivideBy | pcm/fields.py:12 | each component divided by r multiplies back to the component |
| Fields.XiDefined | pcm/fields.py:10-11 | eps != 0 makes mag2 + eps^2 positive at every point |
| Fields.XiNormBelowOne | pcm/fields.py:10-12 | for eps != 0, the squared norm of xi equals mag2/(mag2 + eps^2), which is below 1 |
| Fields.GFromXi | pcm/fields.py:15-21 | the nested-loop accumulation gives the sum of the nine squared gradient entries, so G >= 0 |
| Fields.SaturateBounds | pcm/fields.py:23-24 | for G >= 0, 0 <= Psi < 1, and G = Psi/(1-Psi) |
| Fields.SaturateMonotone | pcm/fields.py:23-24 | Psi is non-decreasing in G >= 0 |
| Fields.PsiSaturated | pcm/fields.py:23-24 | Psi is the pointwise saturation, and it lies in [0, 1) wherever G >= 0 |
| Grid.Gradient | pcm/spectral.py:21-32 | the gradient of a vector field is a 3x3 layout |
| Grid.GradientIsTensorField | pcm/spectral.py:27 | the gradient of a vector field on the grid is a tensor field on the grid |
| Grid.RowsSquaresComplete | pcm/spectral.py:72-75 | the `for i: for j: s += g[i,j]**2` accumulation over all nine pairs is the nine-term sum |
| Grid.NineSquaresNonneg | pcm/spectral.py:72-76 | the sum of the nine squared entries is non-negative |
| Grid.NineSquaresZero | pcm/spectral.py:72-76 | the nine-term sum is 0 exactly when all nine entries are 0 |
| Spectral.GradVector | pcm/spectral.py:21-32 | out[i][j] is the derivative of component i along axis j, filled in a nested loop |
| Spectral.CurlOf | pcm/spectral.py:36-41 | the curl combination of a gradient tensor field is a vector field on the grid |
| Spectral.Curl | pcm/spectral.py:34-41 | omega = (du_z/dy - du_y/dz, du_x/dz - du_z/dx, du_y/dx - du_x/dy) at every point |
| Spectral.CurlOfSymmetric | pcm/spectral.py:38-40 | the curl vanishes wherever the gradient tensor is symmetric |
| Spectral.DivergenceOfCurl | pcm/spectral.py:34-41 | for a linear derivative whose mixed partials commute, the curl of any u is divergence-free |
| Spectral.Transpose | pcm/spectral.py:46 | swapaxes(0, 1) transposes the tensor at every point; `StrainOf` uses it to prove the strain symmetric |
| Spectral.StrainOf | pcm/spectral.py:43-47 | the strain is symmetric at every point and keeps the gradient's diagonal |
| Spectral.Strain | pcm/spectral.py:43-47 | strain(u) is (g + g^T)/2 for the gradient g of u, so it inherits `StrainOf`'s symmetry |
| Spectral.MaxAbs3 | pcm/spectral.py:63 | the result is >= 0, >= every absolute eigenvalue, and equal to one of them |
| Spectral.OpNormSym3x3Field | pcm/spectral.py:49-64 | per point, the value is >= 0, >= each absolute eigenvalue of that point's 3x3 matrix, and equal to one of them (the matrix is copied in a nested loop) |
| Spectral.GradOmegaNorm2 | pcm/spectral.py:66-76 | s is the sum of the nine squared gradient entries at every point, so s >= 0 |
| Fit.SelectionMask | pcm/fit.py:8 | one mask entry per point |
| Fit.SelectionExact | pcm/fit.py:8 | a point is selected exactly when dmin <= delta <= dmax and m > 0 |
| Fit.Logs | pcm/fit.py:11-12 | the log is taken entrywise; `FitExactPowerLaw` uses it to recover an exact power law from its logs |
| Fit.SelectedLogs | pcm/fit.py:11-12 | x and y have one entry per selected point |
| Fit.Centered | pcm/fit.py:18 | each entry is the deviation from the mean; `CenteredSumZero` proves the deviations sum to zero |
| Fit.Residuals | pcm/fit.py:16-17 | each residual is y - (alpha*x + logC); `OlsNormalEquations` and `ResidualExpansion` prove the fit's residuals are orthogonal to [x, 1] and minimal |
| Fit.FitPowerlaw | pcm/fit.py:5-28 | the fit fails, with the fixed reason, exactly when fewer than five points are selected; on success npts is the selected count, fit_range echoes the input, and C = exp(logC) |
| Fit.CenteredSumZero | pcm/fit.py:18 | deviations from the mean sum to zero |
| Fit.OlsThroughCentroid | pcm/fit.py:13-14 | the fitted line passes through (mean x, mean y) |
| Fit.OlsSolvesNormal | pcm/fit.py:13-14 | the fitted line passes through the centroid, and its slope solves alpha*Sxx = Sxy, in both the full-rank and the rank-one case |
| Fit.OlsNormalEquations | pcm/fit.py:13-14 | the residuals of the fit are orthogonal to both columns of [x, 1] |
| Fit.ResidualExpansion | pcm/fit.py:16-17 | for a line p meeting the normal equations, every line q has ss_res(q) = ss_res(p) + the squared norm of the gap between them |
| Fit.OlsOptimal | pcm/fit.py:13-14 | no line has a smaller residual sum of squares than the fitted one |
| Fit.FitLeastSquares | pcm/fit.py:11-14 | a successful fit's (alpha, logC) has a residual sum of squares over the logged selected points no larger than any other line's |
| Fit.OlsRankDeficient | pcm/fit.py:13-14 | with all x equal, the fit solves the rank-one system, is a multiple of (x0, 1), and is no longer than any other solution |
| Fit.OlsInterceptOfLine | pcm/fit.py:13-14 | points on y = a*x + b with spread-out x give back logC = b |
| Fit.OlsRecoversLine | pcm/fit.py:11-14 | points on y = a*x + b with two distinct x give back alpha = a and logC = b |
| Fit.OlsExactLine | pcm/fit.py:11-17 | points on y = a*x + b with two distinct x give back the line with ss_res = 0 |
| Fit.RSquaredBounds | pcm/fit.py:15-19 | R^2 of the fitted line lies in [0, 1] and is 1 when ss_tot = 0 |
| Fit.FitExactPowerLaw | pcm/fit.py:5-28 | when five or more selected points lie on ln m = a*ln delta + b with two distinct ln delta, the fit succeeds with alpha = a, logC = b, C = exp(b) and R^2 = 1 |
| Fit.FitRSquaredBounds | pcm/fit.py:15-19 | every successful fit has 0 <= R^2 <= 1 |
| Fit.BandMask | pcm/fit.py:33 | a point is in the band exactly when 1e-6 < m < 0.3; `SuggestBand` proves the suggested range encloses every band point |
| Fit.FallbackIndices | pcm/fit.py:36-37 | the 20% index is at most the 80% index, and both are in bounds for a non-empty list |
| Fit.SuggestFallback | pcm/fit.py:34-38 | with fewer than six band points, the range is (delta[int(0.2 len)], delta[int(0.8 len)]); both indices are valid, and lo <= hi for non-decreasing delta |
| Fit.SuggestBand | pcm/fit.py:39-40 | with six or more band points, the range is ordered, contains the delta of every band point, and both ends are deltas of band points |
| Fit.SuggestedBandFits | pcm/fit.py:30-40 | a range suggested from the band always admits a successful fit with at least six points |
| Reductions.CountTrue | pcm/fit.py:9 | `np.sum(mask)` counts the true entries and is at most the length |
| Reductions.Compress | pcm/fit.py:39 | `delta[good]` has one entry per true mask position |
| Reductions.CompressSource | pcm/fit.py:39 | every entry of `delta[good]` comes from a position where the mask holds, and the same position indexes paired lists |
| Reductions.CompressContains | pcm/fit.py:39 | every entry under a true mask position appears in `delta[good]` |
| Reductions.CountMono | pcm/fit.py:9 | a mask contained in another counts no more points |
| Reductions.Min | pcm/fit.py:40 | the minimum is an entry and is at most every entry |
| Reductions.Max | pcm/fit.py:40 | the maximum is an entry and is at least every entry |

## Left out

- The spectral derivative is a parameter (`Deriv`). `_kgrid` and `grad_scalar` (pcm/spectral.py:5-19) are not part of this model. Neither are the FFTs or the `.real` projection in `grad_vector`. No spectral-accuracy claim is made; the only law used is that a derivative keeps the field's length, plus linearity and commuting mixed partials in `Spectral.DivergenceOfCurl`.
- `np.linalg.eigvalsh` is a parameter returning three reals. Eigen-solving is not modelled, so `Spectral.OpNormSym3x3Field` relates the norm to whatever eigenvalues it returns.
- `np.sqrt` is a parameter with the square-root law on non-negative reals. `np.log` and `np.exp` are parameters with no law. What `ln` returns for a non-positive delta is therefore unconstrained. (The selection only guarantees m > 0, not delta > 0.)
- `np.logspace` is modelled through a `pow10` parameter with a monotone power-of-ten law. The actual values 10^x are not computed.
- Floating point is not modelled: all arithmetic is exact `real`. `int(0.2*len)` and `int(0.8*len)` are modelled as `(2*len)/10` and `(8*len)/10`.
- Fit.Ols: computes the least-squares line in closed form and does not model the SVD inside `lstsq` or its `rcond` cut-off. It also does not model its rounding.
- Measurements.Measure: requires every eps in the schedule to be non-zero (`ValidConfig`). With eps = 0 the source divides by zero wherever |omega| = 0 and reports inf or nan. This precondition also applies to `ComputeAll` and every lemma about `Measure`.
- Measurements.Measure: requires a snapshot holding `omega` or `u` with the (3, n, n, n) shape (`ValidSnapshot`). A snapshot with neither raises a KeyError in the source.
- Measurements.Measure: requires a grid side n > 0 (`ValidSnapshot`). On an empty grid the source raises ZeroDivisionError at `dx = L/n`, and the means it takes are undefined; that error path is not modelled.
- Measurements.Measure: requires `u`, when given beside `omega`, to have the same number of points as `omega` (`ValidSnapshot`). With different sizes the source raises IndexError at `Sop[mask]`; that error path is not modelled.
- Measurements.DefaultConfig: takes the box side L as an argument and has no default. The source's default L = 2π (in `MeasureConfig` and `default_config`) is left out because π is not an exact real; callers pass it.
- The `assert` shape checks in `grad_vector` and `opnorm_sym_3x3_field` are preconditions (`IsVectorField`, `IsTensorField`). Their AssertionError path is not modelled.
- Fit.SuggestFitRange: requires a non-empty delta list. On an empty list the source raises IndexError.
- `MeasureConfig.M_threshold` is carried in the configuration and never read, as in the source.
- The grid side n is taken from the snapshot rather than from `omega.shape[1]`; `ValidSnapshot` makes the two agree.
- The output dictionary is the `Measurement` datatype, built once at the end. The numpy arrays written in place (`out` in `grad_vector`, `A` in `opnorm_sym_3x3_field`, the accumulators in `G_from_xi` and `grad_omega_norm2`) are `seq` values reassigned in the loops. Aliasing between arrays is therefore not modelled.
- The `float(...)` and `.tolist()` conversions are identities on exact reals.
- The following are not part of this model:
  - HDF5 and JSON I/O (pcm/io.py, pcm/cli_common.py);
  - plotting (pcm/plot.py);
  - the command-line front ends (pcm/measure.py, pcm/fit_alpha.py);
  - the synthetic and exact-solution field generators (pcm/tools/);
  - the subprocess smoke test.
