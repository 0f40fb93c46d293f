# Cruise-performance dashboard: verified model of the refresh callback

The dashboard in `data-builder.py` simulates aircraft cruise telemetry. It keeps
four process-wide series that stay index-aligned: a time index, speed, altitude
and thrust. At startup each series holds 100 samples, and the time index is
`0..99`.

On every refresh, the callback `update_graphs` does four things:

1. It validates the user's aircraft weight W and wing area S. A missing or
   non-positive value makes it fall back to 50000 N and 30 m² for both of them.
2. It appends one randomly drawn sample to every series and keeps the last 100
   entries of each.
3. It cuts out the time window chosen on the slider, `series[start:end]`.
4. For each sample of the window it derives three values:
   - the air density `rho = 1.225 * (1 - alt / 44330)`;
   - the lift coefficient `C_L = 2 W / (rho v² S)`;
   - the drag coefficient `C_D = 2 T / (rho v² S)`.

The model is split into these modules:

- `Rolling`: the bounded FIFO step on one series. `x.append(v)` followed by
  `x = x[-100:]`, Python's `x[-1]`, and the invariants of the series
  (consecutive times, samples in range).
- `Telemetry`: the four series as the class `TelemetryBuffer`. Its fields are
  updated in place by `Advance`. The function `Select` takes the window; it only
  reads the buffer.
- `Slicing`: Python's `s[start:stop]` for any integer bounds. Negative bounds
  count from the end, and every bound is clamped into `[0, len]`.
- `Params`: the fallback for the weight and area inputs.
- `Aero`: the density model and the lift and drag coefficients over `real`.
  The series are computed with `zip` semantics, which stop at the shortest list.
- `Dashboard`: `UpdateGraphs`, the data half of one refresh, run on a buffer
  object.

The random draws are parameters of `Advance`, `UpdateGraphs` and the
`TelemetryBuffer` constructor. Each of them is required to lie in the range the
source draws it from.

## Model

| member | source | states |
|---|---|---|
| Telemetry.TelemetryBuffer.constructor | data-builder.py:68-71 | The startup buffer holds times `0..99` and the 100 given draws of each quantity. The buffer invariant holds: equal lengths, consecutive times, samples in range. |
| Telemetry.InitialTimes | data-builder.py:68 | `list(range(100))`: 100 entries with `t[i] == i`, so the times are consecutive. |
| Telemetry.TelemetryBuffer.Advance | data-builder.py:101-111 | One refresh keeps the buffer invariant. The new state is exactly `Advanced` of the old one: each series gets its new sample at the end and keeps its last 100 entries, and the new time is the old last time plus one. |
| Telemetry.AdvancedKeepsInvariant | data-builder.py:101-111 | After one refresh the four series have equal length, `min(old length + 1, 100)`, and the times stay consecutive. Every sample stays in its draw range and the last time grows by one. On a full buffer, each series becomes the old series without its oldest element, followed by the new sample. |
| Rolling.KeepLast | data-builder.py:108-111 | `x[-n:]` has length `min(len, n)` and is the suffix of `x` of that length. |
| Rolling.KeepLastShort | data-builder.py:108-111 | `x[-100:]` leaves a series of at most 100 entries unchanged. |
| Rolling.KeepLastIdempotent | data-builder.py:108-111 | Truncating twice to the last n entries is the same as truncating once. |
| Rolling.PushShape | data-builder.py:102-111 | Append-then-truncate gives length `min(len + 1, 100)` and ends with the new sample. The retained older samples are the old series' suffix, in their original order. |
| Rolling.PushFull | data-builder.py:102-111 | On a series of exactly 100 entries, append-then-truncate drops exactly the oldest entry and appends the new one. |
| Rolling.PushNotFull | data-builder.py:102-111 | On a series shorter than 100, append-then-truncate is a plain append. |
| Rolling.PushAllIn | data-builder.py:103-111 | If the old samples and the new draw lie in `[lo, hi]`, every sample of the new series does too. |
| Rolling.PushConsecutive | data-builder.py:101-111 | Appending `times[-1] + 1` and truncating keeps the time series consecutive. |
| Rolling.ConsecutiveSteps | data-builder.py:101-102 | A series is consecutive (`t[i] == t[0] + i`) if and only if every step rises by one (`t[i] == t[i-1] + 1`). |
| Rolling.AdvanceTimesShape | data-builder.py:101-111 | After n refreshes, the time series of a consecutive non-empty series is non-empty and consecutive. Its length is `min(len + n, 100)` and its last time grew by n. |
| Rolling.StartupTimesAfter | data-builder.py:68-111 | Starting from `range(100)`, the time series after n refreshes is exactly `range(n, n + 100)`. |
| Telemetry.TimesAfterRefreshes | data-builder.py:68-111 | The startup time series after n refreshes has 100 entries, and entry i is `n + i`. |
| Telemetry.TelemetryBuffer.Select | data-builder.py:114-118 | The four filtered series have one length, `max(0, clamped end - clamped start)`. They are index-aligned: entry k of each is entry `clamped start + k` of its series. They keep consecutive times and the sample ranges. The buffer is only read. |
| Telemetry.SliceWellFormed | data-builder.py:114-118 | Slicing all four series of a well-formed window with one pair of bounds gives a well-formed window. |
| Slicing.Bound | data-builder.py:115-118 | A slice bound lands in `[0, len]`. A bound inside the list is kept, and a negative bound within range counts from the end. |
| Slicing.Slice | data-builder.py:115-118 | `s[start:stop]` has length `max(0, Bound(stop) - Bound(start))` and is the contiguous run of `s` starting at `Bound(start)`. |
| Slicing.SliceNonNegative | data-builder.py:115-118 | For `0 <= start` and `0 <= end`, the slice is exactly the elements at `[min(start, len), min(end, len))`, with length `max(0, min(end, len) - min(start, len))`. |
| Slicing.SliceInside | data-builder.py:115-118 | A window inside the list has exactly `end - start` elements and starts at `start`. |
| Slicing.SliceMembers | data-builder.py:115-118 | Every element of a slice is an element of the sliced series. |
| Params.EffectiveParams | data-builder.py:92-98 | The effective weight and area are always positive. They are either both defaults (50000, 30) or both exactly the user's inputs. |
| Params.FallbackResetsBoth | data-builder.py:92-94 | A missing or non-positive weight or area resets both to (50000, 30), even when the other input is valid. |
| Params.UsableInputsPassThrough | data-builder.py:92-98 | When both inputs are present and positive, they pass through unchanged. |
| Params.EffectiveParamsIdempotent | data-builder.py:92-98 | Validating an already validated pair changes nothing. |
| Aero.Rho | data-builder.py:121 | The density is positive exactly below 44330 m and zero exactly at 44330 m. It is at most 1.225 at any non-negative altitude. |
| Aero.RhoDecreasing | data-builder.py:121 | The density is 1.225 at sea level and strictly decreases with altitude. |
| Aero.RhoSeries | data-builder.py:121 | The density list has one entry per altitude of the window, and entry i is the density at altitude i. |
| Aero.LiftSeries | data-builder.py:122 | The C_L list has the length of the zip of densities and speeds. |
| Aero.LiftSeriesAt | data-builder.py:122 | Entry i of the C_L list is `2 W / (rho_i v_i² S)`. |
| Aero.DragSeries | data-builder.py:123 | The C_D list has the length of the zip of thrusts, densities and speeds. |
| Aero.DragSeriesAt | data-builder.py:123 | Entry i of the C_D list is `2 T_i / (rho_i v_i² S)`. |
| Aero.CoefficientsBalanceForces | data-builder.py:122-123 | C_L is the coefficient at which lift `rho v² S C_L / 2` equals the weight. C_D is the one at which drag equals the thrust. Both are positive when every factor is positive. |
| Aero.ComputableDefined | data-builder.py:121-123 | Altitudes other than 44330 m and non-zero speeds make every density and speed in the zip non-zero, so no coefficient divides by zero. |
| Aero.CoefficientRatio | data-builder.py:122-123 | At one sample, `C_L * T == C_D * W`. |
| Aero.SeriesRatioAt | data-builder.py:122-123 | At index i of the zipped series, `cl_i * t_i == cd_i * W`. |
| Aero.SeriesRatio | data-builder.py:122-123 | For every index of the C_D list, `cl_i * t_i == cd_i * W`. |
| Aero.CruiseDensity | data-builder.py:121 | In cruise (altitudes in `[0, 44330)`), every density lies in `(0, 1.225]` and the denominators are non-zero. |
| Aero.CoefficientsPositive | data-builder.py:121-123 | In cruise, with positive weight and area, every C_L and every C_D is positive. |
| Dashboard.CruiseWindow | data-builder.py:121-123 | Every window the buffer can produce is in the cruise regime, so all its coefficients are defined. |
| Dashboard.FrameCoefficientsPositive | data-builder.py:121-123 | On any window the buffer can produce, with the validated parameters, rho, C_L and C_D each have one entry per sample. Every density lies in `(0, 1.225]` and every C_L and C_D is positive. |
| Dashboard.UpdateGraphs | data-builder.py:88-123 | One refresh advances the buffer exactly as `Advance` does. The window is `Select` of the advanced buffer. The density and coefficient lists are computed from that window with the validated parameters, and all of them have the window's length. |

## Left out

- The Dash application, its layout, its components and the callback
  registration (data-builder.py:10, 18-65, 75-87, 202-206): these are
  user-interface wiring.
- The Plotly figures and the histograms (data-builder.py:126-166): these are
  calls into a plotting library.
- The pandas `describe()` statistics table (data-builder.py:169-196): this is a
  library call followed by rounding for display.
- `update_output` and `app.run_server` (data-builder.py:202-211): these are
  user-interface and server code.
- `random.uniform`: each draw is a parameter that is required to lie in the
  range the source draws it from.
- The callback's trigger inputs `n` and `n_clicks`: the source never reads them.
- IEEE floating point: the arithmetic is over `real`. The division by zero the
  source would hit at an altitude of exactly 44330 m or a speed of 0 is
  excluded by preconditions, which the buffer's range invariant discharges.
- The rebinding of module-level lists through `global`: the four series are
  fields of one `TelemetryBuffer` object.
- Appending and truncating are whole-sequence assignments to the fields; the
  aliasing of Python list objects is not modelled.
- Telemetry.TelemetryBuffer.Advance requires a non-empty buffer. The source
  reads `times[-1]`, which raises on an empty list; an empty buffer cannot arise
  from the startup state.
- Aero.LiftSeries and Aero.DragSeries: their own contracts state only the
  length of the result. The per-entry formulas are stated by Aero.LiftSeriesAt
  and Aero.DragSeriesAt.
