# XenQnt tuning lattice and quantizer, in Dafny

XenQnt is a VCV Rack module from the h4n4 collection. It quantizes pitch voltages to a
microtonal tuning. A tuning is a list of cent offsets above the tonic, and its last entry
is the period (1200 cents for an octave-repeating scale). `updateTuning` expands the scale
into a sorted table `pitches`. The table holds every voltage `k * period / 1200 + offset / 1200`
inside the window `[MIN_VOLT, MAX_VOLT] = [-4, 6]`, where `k` is any integer and `offset`
is 0 or a scale entry. The table is built by two walks: an upward walk from 0 V, one period
per pass, and a downward walk over a rotated copy of the scale (period dropped, 0 put in
front), one period lower per pass. `getPitch` maps a voltage to its nearest table entry
with a `lower_bound` search. `onReset` installs 12-tone equal temperament, and `process`
quantizes every input channel. Two path helpers split a file name at its last `/` or `\`.

Modules:

- `Tuning` (`tuning.dfy`): the lattice (`OnLattice`, `IsLatticeOf`), the two walks as
  recursive prefix functions (`Ups`, `Lows`), and the lemmas. One lemma shows that the
  table the walks assemble is exactly the lattice: strictly ascending, inside the window,
  nothing missing and nothing extra. This module also holds the 12-tone default.
- `Quantizer` (`quantizer.dfy`): `std::lower_bound` as a binary search, and `getPitch`
  with its nearest-entry, clamping, tie-break, fixed-point and idempotence properties.
- `XenQntModule` (`xenqnt.dfy`): the class `XenQnt` with the fields `pitches` and
  `scale`. `UpdateTuning`, `OnReset` and `Process` are imperative methods with the
  source's loops, proved against the `Tuning` functions. `UpwardPass` and `DownwardPass`
  are the two walks of `updateTuning`, as methods of their own.
- `Paths` (`paths.dfy`): `getBaseName` and `getParentDir`, with `find_last_of` and
  `substr` over 64-bit `size_t` positions (so `npos + 1` wraps to 0).

Voltages and cents are `real`. The host's input and output ports are sequences of
voltages, one per channel. The directory check `exists` is an oracle parameter
`dirExists: string -> bool`.

## Model

| member | source | states |
|---|---|---|
| Quantizer.LowerBound | src/XenQnt.cpp:96 | the first index whose entry is not below `v`: everything before it is below `v`, everything from it on is not |
| Quantizer.GetPitch | src/XenQnt.cpp:94-109 | on a non-empty ascending table the result is a table entry; at or below the first entry it is the first entry, above the last entry it is the last entry |
| Quantizer.GetPitchNearest | src/XenQnt.cpp:102-107 | no table entry is closer to `v` than the result, and every entry just as close is not above the result |
| Quantizer.GetPitchTieGoesUp | src/XenQnt.cpp:103-106 | when `v` lies exactly halfway between two distinct neighbouring entries, the upper one is returned (the comparison is strict) |
| Quantizer.GetPitchFixedPoint | src/XenQnt.cpp:96-98 | a voltage that is a table entry is returned unchanged |
| Quantizer.GetPitchIdempotent | src/XenQnt.cpp:94-109 | quantizing an already quantized voltage changes nothing |
| XenQntModule.XenQnt.Process | src/XenQnt.cpp:64-70 | the output has as many channels as the input, and channel `i` is `GetPitch` of input channel `i`, hence a table entry |
| XenQntModule.XenQnt.UpdateTuning | src/XenQnt.cpp:126-178 | afterwards `scale` equals the given cents and every table entry is a lattice point; for a well-formed scale the table is exactly the in-window lattice, strictly ascending, and the object is valid |
| XenQntModule.UpwardPass | src/XenQnt.cpp:128-146 | the list starts with the 0 V tonic, every entry is a lattice point at most MAX_VOLT; for a well-formed scale it is strictly ascending and holds every point of the upward walk at or below MAX_VOLT, although the walk stops at the first point above it |
| XenQntModule.DownwardPass | src/XenQnt.cpp:148-167 | the upward list is kept as the tail, and every prepended entry is a lattice point at least MIN_VOLT; for a well-formed scale the prepended part is strictly ascending, negative, and holds every point of the downward walk at or above MIN_VOLT |
| Tuning.UpsComplete | src/XenQnt.cpp:135-146 | an upward walk that stopped at its first point above MAX_VOLT has emitted every walk point at or below MAX_VOLT |
| Tuning.LowsComplete | src/XenQnt.cpp:156-167 | a downward walk that stopped at its first point below MIN_VOLT has emitted every walk point at or above MIN_VOLT |
| XenQntModule.XenQnt.OnReset | src/XenQnt.cpp:181-192 | afterwards `scale` is 100, 200, ..., 1200 cents, `pitches` is the default table, and the object is valid |
| XenQntModule.XenQnt.constructor | src/XenQnt.cpp:47-60 | a new module starts with the 12-tone default installed by `onReset` |
| XenQntModule.XenQnt.ValidTable | src/XenQnt.cpp:96-98 | a valid table is non-empty and ascending, which is what `getPitch` needs before it dereferences the search result |
| Tuning.Rotated | src/XenQnt.cpp:149-154 | definition (not a proved property) of the copy the downward walk reads: 0 first, then the scale without its period; `DownwardPass` is proved to walk exactly this copy |
| Tuning.DownFromOffset | src/XenQnt.cpp:158 | the voltage computed from the running period offset is the lattice point one period below, at the rotated entry |
| Tuning.UpPassDone | src/XenQnt.cpp:145 | after a complete upward pass the offset is one whole period higher, and the number of passes is at most MAX_VOLT * 1200 / period |
| Tuning.DownPassDone | src/XenQnt.cpp:166 | after a complete downward pass the offset is one whole period lower, and the number of passes is at most -MIN_VOLT * 1200 / period |
| Tuning.UpsOnLattice | src/XenQnt.cpp:135-146 | every voltage the upward walk emits is a lattice point |
| Tuning.LowsOnLattice | src/XenQnt.cpp:156-167 | every voltage the downward walk emits is a lattice point |
| Tuning.UpsAscending | src/XenQnt.cpp:135-146 | for a well-formed scale the upward walk's voltages strictly increase, are positive and stay at or below the point it has reached |
| Tuning.LowsAscending | src/XenQnt.cpp:156-167 | for a well-formed scale the prepended voltages are strictly ascending in table order, negative, and at or above the point the walk has reached |
| Tuning.Complete | src/XenQnt.cpp:135-167 | once both walks have stopped, every lattice point inside the window is in the assembled table |
| Tuning.BuiltTableIsLattice | src/XenQnt.cpp:129-173 | the table assembled from the two walks and the 0 V tonic is strictly ascending, holds only in-window lattice points, and holds all of them |
| Tuning.ZeroExactlyOnce | src/XenQnt.cpp:130 | a lattice table contains 0 V at exactly one index |
| Tuning.LatticeUnique | src/XenQnt.cpp:221 | two tables that are both the lattice of a scale are equal, so rebuilding the table from a stored scale gives the table it had |
| Tuning.TwelveTone | src/XenQnt.cpp:189-191 | the default scale is well formed with period 1200 cents |
| Tuning.DefaultTable | src/XenQnt.cpp:184-188 | the default table starts at MIN_VOLT, rises in steps of 1/12 V, stays inside the window, and one more step would pass MAX_VOLT |
| Tuning.DefaultTableIsLattice | src/XenQnt.cpp:181-192 | the default table is exactly the in-window lattice of the 12-tone equal scale |
| Tuning.TwelveToneTableIsDefault | src/XenQnt.cpp:181-192 | building a table from the 12-tone equal scale gives exactly the default table |
| Paths.FindLastSeparator | src/utils.cpp:41 | `find_last_of("/\\")`: `npos` exactly when there is no separator, otherwise the index of a separator with none after it |
| Paths.Substr | src/utils.cpp:41 | definition (not a proved property) of `std::string::substr(pos, count)` for `pos <= size`: `min(count, size - pos)` characters read from `pos` on |
| Paths.GetBaseName | src/utils.cpp:39-42 | the base name contains no separator, is a suffix of the path, is everything after the last separator, and is the whole path when there is no separator |
| Paths.ParentCandidate | src/utils.cpp:30-31 | the candidate parent is the whole path when there is no separator; otherwise it is the prefix before a separator that has no separator after it |
| Paths.SplitRoundTrip | src/utils.cpp:29-42 | for a path with a separator, candidate parent + separator + base name is the path again |
| Paths.GetParentDir | src/utils.cpp:29-37 | a result exists exactly when the directory check accepts the candidate, the result is that candidate, and it rebuilds the path together with the base name |

## Left out

- Scala file parsing (`updateTuning(char*)`, src/XenQnt.cpp:111-124): it calls a third-party library. The model starts from the list of cents.
- XenQntModule.XenQnt.UpdateTuning: requires a non-empty scale with a positive period. With an empty list the upward loop never ends, because a pass over no entries never sets its stop flag, and a parse error in `updateTuning(char*)` passes exactly such a list. With a period at or below zero, usually one of the two loops never ends: for 8000, 0 cents the upward walk stops at once but the downward one never leaves the window. Some such scales do terminate in the source, for example 8000, -10000, -100 cents, where both walks stop at their first step and the table is just 0 V; the requires excludes those as well, since the number of passes has no bound once the period is not positive.
- XenQntModule.XenQnt.UpdateTuning: for a scale that is not positive and strictly increasing, it only ensures that every entry is a lattice point. Order and completeness are proved for well-formed scales only.
- XenQntModule.XenQnt.Process: requires a non-empty ascending table, which every valid state provides (`ValidTable`). With an empty table `getPitch` dereferences `end()`.
- JSON persistence (`dataToJson`/`dataFromJson`, src/XenQnt.cpp:195-223) is a foreign library. Only the table rebuilt by `updateTuning(scale)` is covered, by `LatticeUnique`.
- The filesystem check `exists` (src/utils.cpp:17-26) uses `stat`, so it is the `dirExists` oracle.
- `MenuItemLoadScalaFile::getParent` (src/XenQnt.cpp:239-247) is the same computation as `getParentDir` with a file-open check as the oracle, so `Paths.GetParentDir` covers it. The file dialog, menu and widget (src/XenQnt.cpp:249-314) are UI.
- The demo light brightness (src/XenQnt.cpp:77-86) and the `time` accumulator (src/XenQnt.cpp:72-75) do not affect the output. `CV_INPUT` is configured but never read.
- Floating point: voltages and cents are reals. The `float` drift of the 1/12 V steps in `onReset` and of the running period offset in `updateTuning` is not modelled.
- Paths.GetParentDir: the source's `return NULL` into a `std::string` is undefined behaviour; the model returns `None` there.
- Paths.GetBaseName: requires the path to be shorter than `npos`, as every real string is.
- Plugin registration (src/plugin.cpp, src/plugin.hpp) and declarations (src/utils.hpp) hold no logic.
