# Efficiency accumulation and dE/dx identification, modelled in Dafny

This project models the counting and parsing core of a heavy-ion analysis
package built on AnalysisTree and ROOT. It has three parts.

- **The vertex-track quality cut** (`VtxTrackCut::CheckVtxTrack`).
  - A track passes on hit counts in the three TPCs, on its hit ratio against the potential hits, and on its distances of closest approach (DCA).
  - It is the module `VtxTrackCut`.
- **The matching task** (`PidMatching`). Per event it does the following.
  - It counts the good vertex tracks (the multiplicity).
  - It walks the vertex-to-simulated matching, filling per-species numerator tables.
  - It walks the simulated tracks, filling denominator tables and a matched-over-simulated efficiency. The pass flag comes from the inverse matching.
  - It walks the vertex tracks, filling charged-hadron efficiencies split by charge sign.
  - At the end of the run it zeroes every cell whose numerator exceeds its denominator.
  - Also modelled: the edge builder of the histogram axes and the weight rule of the validation pass.
  - Modules:
    - `EfficiencyCounts`: what one event adds to each cell.
    - `RunTotals`: what a run adds.
    - `PidMatchingTask`: axes, weight and clean-up.
    - `PidMatchingState`: the tables as classes over arrays, with one method per loop of `UserExec`, plus `UserFinish`.
    - `Matching`: the matching.
- **The dE/dx identification task** (`PiddEdx`).
  - Per event it turns every track that the PID getter identifies into an output particle with derived fields (`DedxIdentification`).
  - Before the run it reads efficiency definitions of the form `... tgt:<word> ... src:<file> ...`.
  - It loads every directory `efficiency_<pid>` of each file as the table of species `<pid>`, and keeps the first table per species.
  - Any missing tag, unreadable file, malformed key, non-directory or missing matrix ends loading with the source's error message.
  - Modules: `EfficiencyDefinitions` (parsing and loading as functions), `IntText` (`%d` and `lexical_cast<int>`) and `PiddEdxTask` (the class with its loops).
  - The last lemmas of `PiddEdxTask` connect the two tasks. The file the matching task writes holds `efficiency_<pdg>` directories with `vtx_sim_centr_y_pt`, optional `validated_eff_<pdg>` directories and `efficiency_charged_hadrons`. It loads back as exactly the species written.

Modelling choices:

- Histograms are integer cell arrays indexed by species slot and cell. A TEfficiency is a pair of passed/total arrays.
- The coordinate-to-cell lookup is an abstract function that lands inside its table.
- The vertex and simulated track selections are predicate parameters. Their bodies belong to task variants that are not part of this model.
- Kinematics (rapidity, pT, η, |p|), the species mass table and the PID getter are opaque functions.
- A floating-point division by zero in the source is `None`.
- Files are a map from file name to key listing. A name not in the map is a file ROOT cannot open.
- The validation weight follows the code: the inverse efficiency when it is below 100, otherwise 0. It is not a relative-uncertainty threshold.

## Model

| member | source | states |
|---|---|---|
| VtxTrackCut.CheckVtxTrack | commons/VtxTrackCut.hpp:43-68 | accepted exactly when total hits ≥ min, VTPC hits > min, potential hits > 0, ratioMin·pot < total < ratioMax·pot, and both DCAs strictly inside their bounds |
| VtxTrackCut.RejectsWithoutPotentialHits | commons/VtxTrackCut.hpp:51-63 | a track whose potential-hit total is ≤ 0 is rejected whatever its other fields |
| VtxTrackCut.AcceptedRatioInWindow | commons/VtxTrackCut.hpp:55-65 | an accepted track has a positive potential-hit total and a hit ratio strictly inside (ratioMin, ratioMax) |
| VtxTrackCut.StandardCutAcceptsReferenceTrack | pid_matching/PidMatching.cpp:110-117 | with the standard thresholds, the track with hits 10/10/15 out of 12/12/16 and DCAs 0.5/0.2 passes |
| Matching.ForwardHolds | pid_matching/PidMatching.cpp:384 | the forward map sends d to s exactly when (d, s) is a pair of the matching |
| Matching.InverseHolds | pid_matching/PidMatching.cpp:383 | the inverse map sends s to d exactly when (d, s) is a pair of the matching |
| Matching.ViewsAgree | pid_matching/PidMatching.cpp:383-384 | d maps forward to s exactly when s maps back to d |
| Matching.InverseInRange | pid_matching/PidMatching.cpp:404-405 | every inverse entry names an existing vertex track, so the lookup at line 405 is in range |
| EfficiencyCounts.Slot | pid_matching/PidMatching.cpp:193-195 | a species has tables exactly when it is 211, -211 or 2212, and its slot names it |
| EfficiencyCounts.CellOf | pid_matching/PidMatching.cpp:200-211 | every fill of a (y_cm, pT) or (multiplicity, y_cm, pT) table lands in a cell of that table |
| EfficiencyCounts.MatchedCell | pid_matching/PidMatching.cpp:337-346 | a match fills a cell inside the table, at the vertex momentum taken with the simulated species' mass |
| EfficiencyCounts.SimCell | pid_matching/PidMatching.cpp:400-408 | a simulated track fills a cell inside the table |
| EfficiencyCounts.ChargedCell | pid_matching/PidMatching.cpp:418-426 | a vertex track fills a cell inside the (η, pT) table |
| EfficiencyCounts.Multiplicity | pid_matching/PidMatching.cpp:290-294 | the number of vertex tracks among the first k that pass the vertex-track selection |
| EfficiencyCounts.MultiplicityAtMostTracks | pid_matching/PidMatching.cpp:290-294 | the multiplicity never exceeds the number of vertex tracks |
| EfficiencyCounts.MultiplicityMonotone | pid_matching/PidMatching.cpp:290-294 | the good-track count over a longer prefix is never smaller |
| EfficiencyCounts.GoodMatches | pid_matching/PidMatching.cpp:298-331 | the number of matches among the first k whose vertex track passes the selection |
| EfficiencyCounts.GoodMatchesBelowIndex | pid_matching/PidMatching.cpp:298-331 | good matches up to match k never outnumber the good vertex tracks up to k's vertex index |
| EfficiencyCounts.GoodMatchesAtMostMultiplicity | pid_matching/PidMatching.cpp:298-331 | the matched-good counter never exceeds the multiplicity |
| EfficiencyCounts.MatchedPrimaryAtMostTotal | pid_matching/PidMatching.cpp:343-346 | in the primary fraction of one event, passed never exceeds total |
| EfficiencyCounts.MatchedAtMostGoodMatches | pid_matching/PidMatching.cpp:329-347 | numerator fills of a species cell never exceed the matched good tracks |
| EfficiencyCounts.HasMatchedGoodVtx | pid_matching/PidMatching.cpp:404-405 | the simulated track has an inverse-map entry whose vertex track passes the selection |
| EfficiencyCounts.HasMatchedGoodVtxMeans | pid_matching/PidMatching.cpp:404-405 | the inverse-map test holds exactly when some pair matches the simulated track to a good vertex track |
| EfficiencyCounts.SimMatchedAtMostTotal | pid_matching/PidMatching.cpp:404-408 | in the matched-over-simulated efficiency of one event, passed never exceeds total |
| EfficiencyCounts.HasMatchedSim | pid_matching/PidMatching.cpp:420 | the vertex track has a forward-map entry |
| EfficiencyCounts.HasMatchedSimMeans | pid_matching/PidMatching.cpp:420 | the forward-map test holds exactly when some pair matches the vertex track |
| EfficiencyCounts.ChargeSplit | pid_matching/PidMatching.cpp:423-427 | negative plus positive fills never exceed all-track fills (charge 0 fills neither) |
| EfficiencyCounts.ChargedMatchedAtMostTotal | pid_matching/PidMatching.cpp:419-426 | in each charged-hadron efficiency, passed never exceeds total |
| EfficiencyCounts.ChargedCountsOrdered | pid_matching/PidMatching.cpp:416-430 | the five orderings of a charged-hadron cell: passed ≤ total per class, and neg + pos ≤ all for passed and for total |
| RunTotals.RunMatchedAdditive | pid_matching/PidMatching.cpp:301-348 | the match-loop tables are additive over runs: the fills of two runs one after the other are the sums of the fills of each |
| RunTotals.RunSimAdditive | pid_matching/PidMatching.cpp:387-414 | the simulated-loop tables are additive over runs |
| RunTotals.RunChargedAdditive | pid_matching/PidMatching.cpp:416-430 | the charged-hadron tables are additive over runs |
| RunTotals.RunMultiplicityAdditive | pid_matching/PidMatching.cpp:295-296 | the multiplicity histograms are additive over runs |
| RunTotals.RunPrimaryAtMostTotal | pid_matching/PidMatching.cpp:343-346 | over a run, the primary fraction keeps passed ≤ total |
| RunTotals.RunSimMatchedAtMostTotal | pid_matching/PidMatching.cpp:404-408 | over a run, the matched-over-simulated efficiency keeps passed ≤ total |
| RunTotals.RunChargedOrdered | pid_matching/PidMatching.cpp:416-430 | over a run, the charged-hadron cells keep the five orderings |
| RunTotals.RunMultiplicityTotal | pid_matching/PidMatching.cpp:295-296 | the entries of either multiplicity histogram over all its cells equal the number of events |
| PidMatchingTask.Edge | pid_matching/PidMatching.cpp:174-182 | edge i of nb bins from lo to hi: lo + i·(hi − lo)/nb below nb, and exactly hi at nb |
| PidMatchingTask.Linspace | pid_matching/PidMatching.cpp:174-182 | nb + 1 edges: lo + i·(hi − lo)/nb below nb, and exactly hi at nb |
| PidMatchingTask.EdgesIncrease | pid_matching/PidMatching.cpp:174-182 | with nb > 0 and lo < hi the edges start at lo and strictly increase |
| PidMatchingTask.MultiplicityAxisEdges | pid_matching/PidMatching.cpp:184-185 | the multiplicity axis has edges 0, 50, ..., 300 |
| PidMatchingTask.ValidationWeight | pid_matching/PidMatching.cpp:359-360 | never negative for eff ≥ 0; 0 for 0 ≤ eff ≤ 0.01; otherwise the inverse of eff, in (0, 100) |
| PidMatchingTask.CleanUp | pid_matching/PidMatching.cpp:457-460 | a cell whose numerator exceeds its denominator becomes 0/0; any other cell is kept |
| PidMatchingTask.CleanUpProperties | pid_matching/PidMatching.cpp:457-460 | after clean-up matched ≤ sim; valid cells are unchanged; others become 0/0, not clamped; signs are kept; applying it twice equals once |
| PidMatchingTask.CleanedRatioInUnitInterval | pid_matching/PidMatching.cpp:456-473 | after clean-up of non-negative counts, every defined ratio lies in [0, 1] |
| PidMatchingTask.CleanUpBins | pid_matching/PidMatching.cpp:455-470 | every cell becomes the clean-up of its old pair, so matched ≤ sim everywhere and ratios lie in [0, 1] |
| PidMatchingState.FillCell | pid_matching/PidMatching.cpp:337-342 | a histogram fill adds one to its cell and changes no other |
| PidMatchingState.FillEfficiencyCell | pid_matching/PidMatching.cpp:343-346 | a TEfficiency fill adds one to total, and one to passed iff the flag is set; no other cell changes |
| PidMatchingState.FillEfficiencyBin | pid_matching/PidMatching.cpp:421-426 | the same for the one-dimensional charged-hadron tables |
| PidMatchingState.LookUpMatchedVtx | pid_matching/PidMatching.cpp:404-405 | true exactly when some pair matches the simulated track to a good vertex track |
| PidMatchingState.CountMultiplicity | pid_matching/PidMatching.cpp:290-294 | returns the number of good vertex tracks |
| PidMatchingState.MatchedTables.constructor | pid_matching/PidMatching.cpp:200-219 | the match-loop tables start empty: they hold the run of no event |
| PidMatchingState.MatchedTables.HoldIsConsistent | pid_matching/PidMatching.cpp:337-346 | tables holding a run have non-negative histograms and passed ≤ total in the primary fraction |
| PidMatchingState.MatchedTables.Completed | pid_matching/PidMatching.cpp:301-381 | after the loop, the tables hold the run extended by the event |
| PidMatchingState.MatchedTables.FillMatchedCells | pid_matching/PidMatching.cpp:327-347 | each cell gains exactly the fills of match j, and the result is whether its vertex track is good |
| PidMatchingState.MatchedTables.FillMatchedTrack | pid_matching/PidMatching.cpp:301-348 | the loop body takes the tables from j matches to j + 1 |
| PidMatchingState.MatchedTables.FillMatched | pid_matching/PidMatching.cpp:298-381 | the tables hold the run extended by the event, and the counter is the number of good matches |
| PidMatchingState.SimTables.constructor | pid_matching/PidMatching.cpp:204-228 | the simulated-loop tables start empty |
| PidMatchingState.SimTables.HoldIsConsistent | pid_matching/PidMatching.cpp:400-408 | tables holding a run have non-negative histograms and passed ≤ total in both efficiencies |
| PidMatchingState.SimTables.Completed | pid_matching/PidMatching.cpp:387-414 | after the loop, the tables hold the run extended by the event |
| PidMatchingState.SimTables.FillSimHistograms | pid_matching/PidMatching.cpp:397-402 | each histogram cell gains exactly the fills of simulated track i |
| PidMatchingState.SimTables.FillMatchedSimCells | pid_matching/PidMatching.cpp:397-408 | each efficiency cell gains exactly the fills of simulated track i, passed iff it has a good matched vertex track |
| PidMatchingState.SimTables.StepHistograms | pid_matching/PidMatching.cpp:397-402 | the histogram fills take the histograms from i tracks to i + 1 |
| PidMatchingState.SimTables.StepEfficiencies | pid_matching/PidMatching.cpp:404-408 | the efficiency fills take the efficiencies from i tracks to i + 1 |
| PidMatchingState.SimTables.FillSimTrack | pid_matching/PidMatching.cpp:388-413 | the loop body takes all the tables from i simulated tracks to i + 1 |
| PidMatchingState.SimTables.FillSim | pid_matching/PidMatching.cpp:383-414 | the tables hold the run extended by the event |
| PidMatchingState.ChargedHadronTables.constructor | pid_matching/PidMatching.cpp:258-270 | the charged-hadron tables start empty |
| PidMatchingState.ChargedHadronTables.HoldIsConsistent | pid_matching/PidMatching.cpp:416-430 | tables holding a run keep passed ≤ total per class and neg + pos ≤ all |
| PidMatchingState.ChargedHadronTables.Completed | pid_matching/PidMatching.cpp:416-430 | after the loop, the tables hold the run extended by the event |
| PidMatchingState.ChargedHadronTables.FillChargedCells | pid_matching/PidMatching.cpp:418-428 | each cell gains exactly the fills of vertex track i: all tracks, plus the table of its charge sign, passed iff forward-matched |
| PidMatchingState.ChargedHadronTables.FillChargedTrack | pid_matching/PidMatching.cpp:416-430 | the loop body takes the tables from i vertex tracks to i + 1 |
| PidMatchingState.ChargedHadronTables.FillChargedHadrons | pid_matching/PidMatching.cpp:416-430 | the tables hold the run extended by the event |
| PidMatchingState.MultiplicityHistograms.constructor | pid_matching/PidMatching.cpp:271-274 | both multiplicity histograms start empty |
| PidMatchingState.MultiplicityHistograms.FillMultiplicity | pid_matching/PidMatching.cpp:295-296 | both histograms hold the run extended by the event: one more entry, in the cell of its multiplicity |
| PidMatchingState.PidMatching.constructor | pid_matching/PidMatching.cpp:193-275 | every table of every species starts empty, and no event has been processed |
| PidMatchingState.PidMatching.AccumulatedIsConsistent | pid_matching/PidMatching.cpp:281-430 | after any run every efficiency has 0 ≤ passed ≤ total and every histogram is non-negative |
| PidMatchingState.PidMatching.FillTracks | pid_matching/PidMatching.cpp:298-430 | the three track loops take every table from the run to the run extended by the event |
| PidMatchingState.PidMatching.UserExec | pid_matching/PidMatching.cpp:281-439 | every table holds the run extended by the event; returns the multiplicity and the good-match count, with good matches ≤ multiplicity ≤ vertex tracks |
| PidMatchingState.PidMatching.UserFinish | pid_matching/PidMatching.cpp:440-470 | both numerator/denominator pairs of every species become the clean-up of the run totals, so matched ≤ sim and every defined ratio lies in [0, 1] |
| DedxIdentification.TrackPid | pid_dedx/PiddEdx.cpp:123-125 | the getter's species for the track at q·p and dE/dx with purity 0.9, -1 meaning unidentified |
| DedxIdentification.Quotient | pid_dedx/PiddEdx.cpp:145 | defined exactly when the denominator is non-zero, and then times the denominator gives the numerator |
| DedxIdentification.MakeParticle | pid_dedx/PiddEdx.cpp:127-162 | the particle carries the track momentum, pid, mass(pid), y_cm = y − beam rapidity, the DCAs, the three hit sums, chi2/ndf iff ndf ≠ 0, and total/pot iff pot ≠ 0 |
| DedxIdentification.Identified | pid_dedx/PiddEdx.cpp:117-166 | the particles of the tracks whose pid is not -1, in track order |
| DedxIdentification.IdentifiedPositions | pid_dedx/PiddEdx.cpp:121-127 | increasing positions inside the input, holding exactly the tracks the getter names a species for |
| DedxIdentification.IdentifiedIsFilter | pid_dedx/PiddEdx.cpp:117-166 | output k is the particle of the k-th identified track, in input order, and there is one output per identified track |
| DedxIdentification.IdentifiedAreIdentified | pid_dedx/PiddEdx.cpp:121-131 | no more particles than tracks, and none has pid -1 |
| DedxIdentification.AcceptedTrackRatio | pid_dedx/PiddEdx.cpp:148-161 | for a track passing a quality cut, the written hit ratio is defined and lies strictly inside the cut's window |
| IntText.FormatInt | pid_matching/PidMatching.cpp:197 | the `%d` text: a minus sign for negative values, then the decimal digits without leading zeros |
| IntText.ParseInt | pid_dedx/PiddEdx.cpp:201 | `lexical_cast<int>` of a run of '-' and digits: one optional leading minus and at least one digit give the value; anything else is a bad cast |
| IntText.NatDigitsRoundTrip | pid_matching/PidMatching.cpp:197 | the `%d` digits of a natural number are non-empty decimal digits whose value is the number |
| IntText.FormatParseRoundTrip | pid_dedx/PiddEdx.cpp:200-201 | `lexical_cast<int>` of the `%d` text of any integer, negative ones included, gives the integer back |
| EfficiencyDefinitions.LastTagBefore | pid_dedx/PiddEdx.cpp:173-174 | the last usable tag occurrence before n, and none after it |
| EfficiencyDefinitions.RunFrom | pid_dedx/PiddEdx.cpp:173-174 | the longest run of the class starting at i: a slice, all in the class, and followed by a character outside it or the end |
| EfficiencyDefinitions.ExtractTag | pid_dedx/PiddEdx.cpp:173-174 | a capture is non-empty and made of characters of the class |
| EfficiencyDefinitions.Target | pid_dedx/PiddEdx.cpp:173-182 | the capture of "^.*tgt:(\w+).*$", if the definition matches |
| EfficiencyDefinitions.Source | pid_dedx/PiddEdx.cpp:174-188 | the capture of "^.*src:([^\s]+).*$", if the definition matches |
| EfficiencyDefinitions.ExtractTagFound | pid_dedx/PiddEdx.cpp:179-186 | the search succeeds exactly when the text is a single line with a tag followed by a character of the class |
| EfficiencyDefinitions.ExtractTagLast | pid_dedx/PiddEdx.cpp:182-188 | the capture is the maximal run of the class after the last usable tag occurrence |
| EfficiencyDefinitions.MatchEfficiencyDir | pid_dedx/PiddEdx.cpp:175 | a matched key name is "efficiency_" followed by the capture, a non-empty run of '-' and digits |
| EfficiencyDefinitions.KeyPid | pid_dedx/PiddEdx.cpp:199-201 | the species of a key: its name matches and the capture casts to an integer |
| EfficiencyDefinitions.MatchEfficiencyDirComplete | pid_dedx/PiddEdx.cpp:199 | every such name matches, with the suffix as capture |
| EfficiencyDefinitions.LoadKey | pid_dedx/PiddEdx.cpp:197-220 | fails exactly on a matching key that is a bad cast, not a directory or without the matrix, leaving the map; otherwise adds the key's species unless present |
| EfficiencyDefinitions.LoadDefinition | pid_dedx/PiddEdx.cpp:177-223 | loading a definition never replaces or removes a table already loaded |
| EfficiencyDefinitions.LoadDefinitionErrors | pid_dedx/PiddEdx.cpp:178-188 | no usable "tgt:" fails with the target message; a target but no usable "src:" fails with the source message; the map is unchanged |
| EfficiencyDefinitions.LoadKeys | pid_dedx/PiddEdx.cpp:196-221 | the keys of a file loaded in order, stopping at the first error |
| EfficiencyDefinitions.LoadAll | pid_dedx/PiddEdx.cpp:177-223 | the definitions loaded in order into one map, stopping at the first error |
| EfficiencyDefinitions.LoadKeysKeeps | pid_dedx/PiddEdx.cpp:219 | loading a file's keys never replaces or removes an existing table |
| EfficiencyDefinitions.LoadKeysSucceeds | pid_dedx/PiddEdx.cpp:196-221 | a file's keys load without error exactly when every key is loadable |
| EfficiencyDefinitions.LoadKeysDomain | pid_dedx/PiddEdx.cpp:196-221 | after success the map holds exactly the old species and those of matching keys |
| EfficiencyDefinitions.LoadKeysFirstWins | pid_dedx/PiddEdx.cpp:219 | a new species gets the table of the first key standing for it |
| EfficiencyDefinitions.LoadAllKeeps | pid_dedx/PiddEdx.cpp:177-223 | loading all definitions never replaces or removes a table that was in the map before loading |
| EfficiencyDefinitions.LoadAllPrefixKeeps | pid_dedx/PiddEdx.cpp:177-223 | across definitions the first table loaded for a species is kept: every table present after the first d definitions is still there, unchanged, after all of them |
| EfficiencyDefinitions.LoadAllSucceeds | pid_dedx/PiddEdx.cpp:177-223 | all definitions load exactly when each one is loadable |
| EfficiencyDefinitions.LoadDefinitionSucceeds | pid_dedx/PiddEdx.cpp:177-221 | one definition loads exactly when both tags are present, its file opens and its keys are loadable |
| PiddEdxTask.PiddEdx.constructor | pid_dedx/PiddEdx.cpp:109 | the task starts with no table and an empty output |
| PiddEdxTask.PiddEdx.UserExec | pid_dedx/PiddEdx.cpp:113-170 | the output is cleared, then holds exactly the identified particles in track order; the tables are unchanged |
| PiddEdxTask.PiddEdx.InitEfficiencyDefinitions | pid_dedx/PiddEdx.cpp:172-225 | the table map and the outcome are those of loading all definitions in order, stopping at the first error |
| PiddEdxTask.PiddEdx.LoadDefinitionInto | pid_dedx/PiddEdx.cpp:177-193 | the map and outcome are those of loading the one definition |
| PiddEdxTask.PiddEdx.LoadFile | pid_dedx/PiddEdx.cpp:196-221 | the map and outcome are those of loading the file's keys, stopping at the first error |
| PiddEdxTask.LoadKeysStops | pid_dedx/PiddEdx.cpp:204-211 | an error ends the key loop: the keys after it are not read |
| PiddEdxTask.LoadAllStops | pid_dedx/PiddEdx.cpp:180-193 | an error ends the definition loop: the definitions after it are not read |
| PiddEdxTask.FormatIntPidChars | pid_matching/PidMatching.cpp:197 | the `%d` text of an integer is a non-empty run of '-' and digits |
| PiddEdxTask.WrittenDirectoryLoads | pid_matching/PidMatching.cpp:197 | the directory name written for pdg parses back to pdg, and the directory loads as pdg's table unless pdg has one |
| PiddEdxTask.WrittenDirectoriesLoad | pid_matching/PidMatching.cpp:193-197 | directories written for any list of species load without error, adding exactly those species, each from its own directory |
| PiddEdxTask.OtherDirectoriesUnmatched | pid_matching/PidMatching.cpp:233-259 | neither `validated_eff_<pdg>` nor `efficiency_charged_hadrons` matches the pattern of species directories |
| PiddEdxTask.WrittenSpeciesSkipsValidated | pid_matching/PidMatching.cpp:197-233 | the validation directories written after each species directory do not change what loads |
| PiddEdxTask.WrittenFileSkipsOthers | pid_matching/PidMatching.cpp:259 | nor does the charged-hadron directory written after them |
| PiddEdxTask.WrittenFileLoads | pid_matching/PidMatching.cpp:193-259 | the file the matching task writes (species directories holding `vtx_sim_centr_y_pt`, validation directories or not, and the charged-hadron directory) loads exactly 211, -211 and 2212, each from its own directory |

## Left out

- ROOT I/O: files, directories, `mkdir`, `Write`, `GetListOfKeys`, `ReadObj` and object ownership. A file's keys are an input listing of (name, is-directory, efficiencies held). A file ROOT cannot open is one missing from the map.
- The getter load in `PreInit`, branch and field wiring, options, and the matched and processed output branches of the matching task (the fields written at pid_matching/PidMatching.cpp:305-325 and 393-395). They are plumbing.
- The `cout` event reports of both tasks. The matching task prints four numbers (pid_matching/PidMatching.cpp:434-437). `PidMatchingState.PidMatching.UserExec` returns the two it computes, the good-match count and the multiplicity. The other two are the number of matches and the number of vertex tracks of the event, `|ev.matches|` and `|ev.vtx|`. The dE/dx task prints how many particles it identified out of how many tracks (pid_dedx/PiddEdx.cpp:167-168). These are `|recParticles|` after `PiddEdxTask.PiddEdx.UserExec` and `|tracks|`.
- IEEE single- and double-precision rounding. Thresholds, DCAs and ratios are reals, so behaviour exactly at a cut boundary may differ. `PidMatchingTask.Linspace` computes its edges exactly (pid_matching/PidMatching.cpp:175-180), and `PidMatchingTask.ValidationWeight` its inverse exactly (pid_matching/PidMatching.cpp:359-360).
- 32-bit overflow of the hit sums and the range overflow of `lexical_cast<int>`. Integers are unbounded.
- Kinematics (`TLorentzVector`), `PdgHelper::mass` and the PID getter. They are foreign, transcendental or read from files, so they are opaque functions.
- TEfficiency internals: binomial intervals, `FindFixBin`, under/overflow cells, and the division producing `vtx_sim_y_pt`/`vtx_sim_centr_y_pt`.
- The weighted validation histograms and their files (pid_matching/PidMatching.cpp:230-254, 350-379, 411-413 and 503-526). Only the weight rule is modelled.
- `\s` and `\w` follow the classic locale.
- The `tgt:` value is parsed and checked but, as in the source, never used.
- PidMatchingState.PidMatching.UserFinish: does not model that the tables are written before the clean-up (lines 446-453). The written objects are outside the model. It also does not restate the consistency of the tables it leaves untouched.
- PidMatchingTask.ValidationWeight: NaN and negative-zero efficiencies have no counterpart among reals.
- Matching.ValidMatching: assumes the matching is one-to-one, so no simulated track is matched twice. The source reads the forward and inverse maps separately from the foreign matching object (pid_matching/PidMatching.cpp:383-384); the model derives the inverse from the forward pairs. For a many-to-one matching the source's choice of inverse entry is the foreign object's, so `Matching.InverseHolds`, `Matching.ViewsAgree`, `EfficiencyCounts.HasMatchedGoodVtxMeans` and `PidMatchingState.LookUpMatchedVtx` are promised only for one-to-one matchings.
- The grouping of tables: the model groups them by the loop that fills them. The source keeps them in one struct per species. Cell contents are the same.
- `CheckSimTrack` and the variants' `CheckVtxTrack`: their bodies (NoCuts/StandardCuts) are not part of this model. They are predicate parameters.
