# Best-performance average of a player's parses

A model of the two data functions of a small script that pulls one player's
performance records ("parses") from a combat-log statistics web API:

- `get_role_parses` keeps the records whose class and specialization, after
  lower-casing, a fixed table `classesDict` maps to the role the player signed
  up for ("tank", "healer" or "dps"). A record the table does not know stops
  the function with Python's `KeyError`.
- `get_best_perf_avg` folds the records into a dictionary from encounter
  (boss) name to the best percentile seen for it, then returns the sum of the
  dictionary's values divided by its size.

Modules:

- `Records` (`records.dfy`): the `Parse` record with the four fields the
  functions read, the `Result` type that stands for "returns a value or raises",
  and lower-casing of strings.
- `RoleTable` (`roletable.dfy`): `ClassesDict`, entry for entry (including
  "shadow" priests listed as healers), and the two-level dictionary lookup.
- `RoleFilter` (`rolefilter.dfy`): the filter loop as a method
  (`GetRoleParses`) proved equal to a fold function (`RoleParses`), with the
  filter laws proved about that fold. The fold is written once for any
  classification `roleOf` (`KeepRole`) and used with the table's (`RoleOf`),
  which keeps the table out of the shape proofs.
- `BestAverage` (`bestaverage.dfy`): the two loops of `get_best_perf_avg` as a
  method (`GetBestPerfAvg`) proved equal to `BestPerfAvg`, the mean of the
  values of `BestMap`; `BestMap` is the dictionary after the first loop and
  `SumValues` the sum of a map's values.

Two behaviours of the code are easy to miss; the model follows the code in both:

- An unknown class or spec raises `KeyError` with the missing lower-cased key.
  The model returns `Failure(KeyError(key))`, and the class is looked up
  before the spec.
- The default best of a new boss is 0 and the dictionary is written only on a
  strictly greater percentile. So an encounter whose percentiles are all at
  most 0 is not in the dictionary and is not counted
  (`ZeroPercentileEncounterIsNotCounted`), although the docstring speaks of
  the best parse of every boss. An empty dictionary divides by zero, modelled
  as `Failure(ZeroDivisionError)`.

## Model

| member | source | states |
|---|---|---|
| `Records.Lower` | get_best_perf_avg.py:50-51 | lower-casing keeps the length, maps each character in place, leaves no capital letter, and leaves a string without capitals unchanged |
| `RoleTable.LookupRole` | get_best_perf_avg.py:52 | `classesDict[class][spec]` succeeds exactly when both keys are present, and then yields a role in {"tank", "healer", "dps"}; a missing class fails with `KeyError(class)`, then a missing spec under a known class fails with `KeyError(spec)` |
| `RoleTable.TableRolesAreRoles` | get_best_perf_avg.py:8-26 | every role value of the constant table `ClassesDict` (the table as written, which no member can change) is "tank", "healer" or "dps" |
| `RoleTable.RoleOf` | get_best_perf_avg.py:50-52 | a record's class and spec are lower-cased and then looked up: it has a role exactly when both lower-cased keys are in the table, and that role is "tank", "healer" or "dps" |
| `RoleTable.ShadowPriestIsHealer` | get_best_perf_avg.py:21 | a record written "Priest"/"Shadow" is classified, after lower-casing, as "healer" |
| `RoleFilter.KeepRole` | get_best_perf_avg.py:47-54 | a successful filter is never longer than its input, and every record it returns has the requested role |
| `RoleFilter.RoleParses` | get_best_perf_avg.py:47-63 | the script's filter as a fold over the records: a successful result is never longer than the input, each returned record's table role is `player_role`, and a non-empty result means `player_role` is one of the table's roles |
| `RoleFilter.KeepRoleFailsAtFirstUnknown` | get_best_perf_avg.py:49-52 | the filter succeeds exactly when every record's lookup succeeds; when it fails, its error is the lookup error of the first record whose lookup fails |
| `RoleFilter.KeepRoleIsMatchingSubsequence` | get_best_perf_avg.py:47-54 | a successful result is exactly the order-preserving subsequence of the input at the matching indices: the j-th output is the unmodified input record at the j-th index, the indices strictly increase, and an index occurs exactly when its record's role is the requested one |
| `RoleFilter.FailureIsFinal` | get_best_perf_avg.py:52 | once a prefix of the records makes the filter fail, the whole input fails with the same error (the exception ends the loop) |
| `RoleFilter.RoleParsesKeepsOnlyPlayerRole` | get_best_perf_avg.py:49-54 | every record the script's filter returns has a lower-cased class and spec present in `classesDict`, and the table's role for them equals `player_role` |
| `RoleFilter.RoleParsesFailsOnUnknownPair` | get_best_perf_avg.py:50-52 | one record whose lower-cased class is not in the table, or whose lower-cased spec is not under that class, makes the filter fail instead of returning a list |
| `RoleFilter.GetRoleParses` | get_best_perf_avg.py:32-63 | the loop that appends to `parses` returns exactly `RoleParses` of its input, the failure included; `metric` has no effect |
| `BestAverage.Step` | get_best_perf_avg.py:82-92 | one pass of the loop body, with the 0 default and the strict `<`: only the record's boss can change; an existing best never decreases; a positive percentile leaves its boss present with a best at least that percentile |
| `BestAverage.BestMap` | get_best_perf_avg.py:79-92 | the dictionary after the aggregation loop; every value in it is positive |
| `BestAverage.BestMapIsMaximumPerEncounter` | get_best_perf_avg.py:79-92 | after the aggregation loop a boss is a key exactly when some record for it has a percentile above 0; its value is one of its records' percentiles and no record for it is higher; an absent boss has only percentiles at most 0 |
| `BestAverage.SumValues` | get_best_perf_avg.py:98-100 | the total of the summing loop over the dictionary's values; with positive values it is non-negative, and positive for a non-empty dictionary |
| `BestAverage.SumValuesRemove` | get_best_perf_avg.py:98-100 | the sum of the dictionary's values splits at any key, so the order in which the summing loop visits the keys does not matter |
| `BestAverage.BestPerfAvg` | get_best_perf_avg.py:97-102 | the sum of the per-boss bests divided by the number of bosses: it fails with `ZeroDivisionError` exactly when the dictionary is empty, and otherwise is positive |
| `BestAverage.BestPerfAvgFailsIff` | get_best_perf_avg.py:97-102 | the average fails with division by zero exactly when no record has a percentile above 0, the empty input included |
| `BestAverage.BestPerfAvgIsBetweenBests` | get_best_perf_avg.py:97-102 | a successful average lies between the smallest and the largest per-boss best, and is positive |
| `BestAverage.MeanIsBetween` | get_best_perf_avg.py:97-102 | the sum of a non-empty dictionary's values divided by its size is at least one of the values and at most one of them |
| `BestAverage.BestPerfAvgOfOneEncounter` | get_best_perf_avg.py:79-102 | when every record names one boss and some percentile is positive, the result is that boss's maximum percentile |
| `BestAverage.BestPerfAvgExample` | get_best_perf_avg.py:66-102 | parses 50 and 80 on "A" with 60 on "B" give (80 + 60) / 2 = 70 |
| `BestAverage.ZeroPercentileEncounterIsNotCounted` | get_best_perf_avg.py:86-92 | a 0 on "A" with a 60 on "B" gives 60: the zero-percentile encounter is left out of both sum and count |
| `BestAverage.GetBestPerfAvg` | get_best_perf_avg.py:66-102 | the dictionary loop, the summing loop and the division return exactly `BestPerfAvg` of the input: the mean of the per-boss bests, or `ZeroDivisionError` when the dictionary is empty |

## Left out

- Reading the API key file, building the request URL, the HTTP GET and the JSON decoding: file and network I/O through library calls. The model starts from the decoded list of records.
- Writing `character.json` with `json.dumps`: file output through a foreign serializer.
- `round(best_average, 1)` and the `print` of the result: floating-point rounding and console output. Percentiles are exact reals, and the model stops at the exact mean.
- The regular-expression choice of the metric and the unused pretty-printer setup: script glue. The metric has no effect on either function.
- Records without one of the fields `spec`, `class`, `encounterName` or `percentile`, and non-numeric or NaN percentiles: these are JSON-schema errors. The `Parse` datatype always carries all four fields, with a real percentile.
- Records.Lower: lower-cases only the ASCII capitals 'A' to 'Z'. Python's `str.lower()` also maps non-ASCII capitals, some to more than one character, and the KELVIN SIGN to 'k'. A record whose class or spec needs such a mapping to match a table key is rejected by the model but accepted by the source. When both reject such a record, the `KeyError` of the model carries the key with the non-ASCII capital left as it was (`KeyError("Ä")` where Python raises `KeyError('ä')`).
- `GetBestPerfAvg` adds the dictionary's values in an arbitrary key order, where Python uses insertion order. With exact reals the sum does not depend on the order, as `SumValuesRemove` shows.
