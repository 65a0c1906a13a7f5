# Churn data generator and cleaner, modelled in Dafny

`generate_data.py` builds a synthetic subscription-churn data set in three stages:

1. `generate_customers` derives one customer record per id from a handful of random draws. The churn decision comes from `calculate_churn_probability`.
2. `add_dirty_data` damages a copy of the data:
   - appends 200 verbatim copies of sampled rows;
   - nulls 5% of the prices and 3% of the regions;
   - lower-cases 10% of the plan names;
   - rewrites 8% of the join dates as `MM/DD/YYYY` text.
3. `clean_data` repairs the data in six steps:
   1. drop exact duplicates, keeping the first;
   2. title-case plan names;
   3. parse join dates in either format;
   4. fill null prices from the plan table;
   5. fill null regions with "Unknown";
   6. clear cancellations that precede the join date.

The model follows that structure, one module per concern:

- `Records`: the customer row and the lookup tables.
- `Churn`: the scoring rule.
- `Calendar` and `Digits`: dates as Python ordinals, with the two text forms.
- `Text`: ASCII `str.lower` and `str.title`.
- `Generator`: `random_date` and `generate_customers`.
- `Defects`: `add_dirty_data`.
- `Cleaner`: `clean_data`.
- `Pipeline`: what cleaning does to dirty generated data.

Every random draw is a parameter, constrained to the range its random call can return:

- the `Draws` record, one per customer;
- the `DefectDraws` samples, drawn without replacement.

Units are integers:

- Prices are in cents: 999, 1599 and 2299.
- The churn probability is in hundredths: base 10, cap 95.
- Average logins and session minutes are in tenths, because the source rounds both to one decimal.
- Dates are day numbers as `date.toordinal` gives them.

The docstring of `calculate_churn_probability` ranks high plan price as the second churn driver. The code gives the plan tier at most 8 hundredths, less than short tenure (20), a billing issue (12) or an international region (10). The model follows the code, and `Churn.PlanWeighsLessThanTenureBillingRegion` states the actual order.

The loops of the source are methods with loop invariants. Each is proved equal to a specification function, and the properties are proved about those functions:

- `GenerateCustomers`, whose loop body is `GenerateCustomer`;
- `AddDirtyData` and `InjectInPlace`;
- `DropDuplicateRows`;
- the five column-wide cleaning steps and `CleanData`.

Error paths are modelled as `Result` values:

- `rng.choice(size=200, replace=False)` on fewer than 200 rows gives `SampleLargerThanPopulation`.
- `pd.to_datetime(format="mixed")` on a join date in neither format gives `UnparseableJoinDate`.

Two behaviours of the code are reproduced on purpose:

- **Step 6 keeps the rows it repairs.** A row whose cancellation date precedes its join date stays in the clean output (generate_data.py:353-361): its cancellation date and reason are nulled and `is_churned` is set to 0. The model does the same (`RepairDates`, `CancelBeforeJoinIsRepaired`).
- **Duplicates are dropped before normalisation.** Step 1 runs before steps 2-5. A copy appended by `add_dirty_data` that later received a different defect from its original is therefore not removed. Once normalised, it is the same row as the original unless exactly one of the two had its region nulled. Either way, the clean output holds the same customer id twice (`CopyIsDuplicateIff`, `CopyWithNullPriceSurvives`). For the date defect this rests on the rewritten join date staying text; see `Defects.Inject` under "## Left out".

## Model

| member | source | states |
|---|---|---|
| `Churn.ChurnProbability` | generate_data.py:86-136 | the probability always lies between the base rate 10 and the cap 95 (hundredths) |
| `Churn.ChurnIgnoresOtherColumns` | generate_data.py:104-136 | the probability depends only on logins, plan, tenure, billing issues, age group and region |
| `Churn.FewerLoginsNoLowerChurn` | generate_data.py:106-110 | rows differing only in logins: fewer logins never give a lower probability; against 8 or more logins, under 3 adds exactly 35 and 3 to under 8 exactly 15, below the cap |
| `Churn.EngagementIsBiggestFactor` | generate_data.py:106-132 | the under-3-logins weight exceeds the weight of every other factor (plan, tenure, billing, age, region) |
| `Churn.PlanWeighsLessThanTenureBillingRegion` | generate_data.py:89-93 | every plan weight is below the short-tenure, billing-issue and international weights, so plan price is not the second driver by weight |
| `Churn.ShorterTenureNoLowerChurn` | generate_data.py:118-122 | rows differing only in tenure: a shorter tenure never gives a lower probability; against 12 months or more, under 6 adds exactly 20 and 6 to 11 exactly 8, below the cap |
| `Churn.BillingIssueNoLowerChurn` | generate_data.py:124-126 | a billing issue never lowers the probability, and adds exactly 12 below the cap |
| `Churn.PricierPlanNoLowerChurn` | generate_data.py:112-116 | rows differing only in plan: a plan at least as expensive never gives a lower probability |
| `Churn.PlanTierAddsWeight` | generate_data.py:112-116 | below the cap, Premium adds exactly 8 and Standard exactly 4 over Basic |
| `Churn.YoungAgeGroupNoLowerChurn` | generate_data.py:128-130 | being in "18-24" or "25-34" never lowers the probability, and adds exactly 6 over an older group below the cap |
| `Churn.InternationalNoLowerChurn` | generate_data.py:132-134 | an international customer never churns less than the same customer elsewhere, and exactly 10 more below the cap |
| `Churn.NoRiskIsBaseRate` | generate_data.py:104-136 | any customer with no risk factor (8 or more logins, neither Premium nor Standard, 12 or more months, no billing issue, not in "18-24" or "25-34", not international) gets exactly the base rate 10 |
| `Churn.AllRisksReachCap` | generate_data.py:104-136 | any customer with every risk factor (either young age group) is capped at 95 |
| `Records.AgeGroupBounds` | generate_data.py:65-72 | every age group's bounds are ordered and lie within 18..80 |
| `Generator.FixedDateOrdinals` | generate_data.py:158-159 | 2021-01-01, 2024-06-30 and 2024-09-30 are Python ordinals 737791, 739067 and 739159 |
| `Generator.RandomDate` | generate_data.py:79-83 | a date exists exactly when start <= end, and then lies in [start, end] |
| `Generator.RandomDateCoversRange` | generate_data.py:79-83 | every day of the range, ends included, is returned by some draw |
| `Generator.TenureMonths` | generate_data.py:184 | tenure counts the whole 30-day months up to 2024-09-30 (floor division), between 3 and 45 for a join date in range |
| `Generator.Churns` | generate_data.py:210-211 | the churn decision: a coin below the base rate always churns, a coin at or above the cap never does |
| `Generator.CancelWindowEnd` | generate_data.py:215-218 | the cancellation window of a join date in range ends after join + 30 and no later than 2024-09-30 |
| `Generator.CancelWindowEndIsTenureEnd` | generate_data.py:184-218 | tenure is at least 3 months, so the cap at 2024-09-30 never binds |
| `Generator.Customer` | generate_data.py:163-228 | the record has every generated-row invariant: id, age within its group and 18..80, plan price from the table, join date in range, tenure by 30-day months, and consistent churn columns (is_churned 1 iff cancellation date and reason are set; cancel >= join + 30; lifetime = cancel - join, else 2024-09-30 - join); it churns iff coin < probability |
| `Generator.GenerateCustomer` | generate_data.py:163-228 | one loop pass yields exactly the customer's record |
| `Generator.GenerateCustomers` | generate_data.py:143-233 | fails exactly when n = 0 (the summary line finds no is_churned column); otherwise n records, the k-th being customer k+1 from the k-th draws, and every row satisfies the invariants |
| `Generator.GeneratedIdAt` | generate_data.py:163-194 | in generated data the row at position k has customer id k+1 |
| `Generator.GeneratedIdsDistinct` | generate_data.py:163-194 | generated customer ids are pairwise distinct |
| `Defects.Inject` | generate_data.py:265-285 | one defect changes only its own column: price or region become null, the plan name becomes its lower-case form (which title-cases back to the same name), and the join date becomes text that reads back as the same day |
| `Defects.Copies` | generate_data.py:261-263 | one copy per sampled position, each an input row |
| `Defects.Marked` | generate_data.py:265-285 | a row with a subset of the defects differs from its input only in price, region, plan name and join date. Each applied defect takes effect: price or region null, plan name lower-cased, join date as text reading back as the same day. Each defect not applied leaves its column as it was |
| `Defects.InjectAt` | generate_data.py:265-285 | one defect keeps the length, and any defect but the date one leaves every join date as it was |
| `Defects.Dirty` | generate_data.py:236-288 | the dirty data has exactly n + 200 rows |
| `Defects.DirtyAt` | generate_data.py:260-285 | dirty row j is its origin row with exactly the defects whose samples contain j; the customer id is untouched |
| `Defects.MarkedByColumns` | generate_data.py:265-285 | applying a row's defects column after column gives the same row as applying them together |
| `Defects.ColumnStepsAt` | generate_data.py:260-285 | row i after appending and the four column passes is row i of the row-wise specification |
| `Defects.ColumnStepsGiveDirty` | generate_data.py:260-285 | appending the copies and then injecting column by column yields the row-wise specification |
| `Defects.InjectInPlace` | generate_data.py:266-285 | assigning the defect one sampled row at a time equals the column-wide injection |
| `Defects.AddDirtyData` | generate_data.py:236-288 | fails exactly when fewer than 200 rows are given; otherwise returns the dirty data |
| `Defects.OriginsOfDirtyRows` | generate_data.py:260-263 | the first n dirty rows are the input rows one to one; the 200 copies come from distinct input rows |
| `Defects.MarkedInjective` | generate_data.py:265-285 | for a generated row, two defect combinations give equal rows iff they are the same combination |
| `Defects.CopyEqualsOriginIff` | generate_data.py:260-285 | a copy equals the row it was copied from iff both received the same defects |
| `Defects.EqualDirtyRowsShareOrigin` | generate_data.py:260-263 | a copy can equal no earlier dirty row except the one it was copied from |
| `Defects.CopyIsDuplicateIff` | generate_data.py:260-320 | a copy is an exact duplicate of an earlier row iff it received the same defects as its origin |
| `Text.Lower` | generate_data.py:276 | lower-casing keeps the length and maps each character |
| `Text.TitleCase` | generate_data.py:325 | str.title on ASCII: a character following a cased one is lowered, every other one is upper-cased; the length is kept |
| `Text.TitleCaseIdempotent` | generate_data.py:325 | title-casing twice equals title-casing once |
| `Text.TitleCaseOfLower` | generate_data.py:325 | title-casing undoes lower-casing |
| `Text.CapitalizedIsTitled` | generate_data.py:325 | a capital followed by lower-case letters is already in title case |
| `Text.TitleCaseRestoresBasic` | generate_data.py:325 | "basic" becomes "Basic" |
| `Calendar.FromCivil` | generate_data.py:158-159 | the ordinal of a valid date falls inside that date's year |
| `Calendar.ToCivil` | generate_data.py:284 | the date of an ordinal is valid and converts back to the same ordinal |
| `Calendar.ToCivilOfFromCivil` | generate_data.py:158-159 | date -> ordinal -> date is the identity |
| `Calendar.FromCivilInjective` | generate_data.py:284 | distinct valid dates have distinct ordinals |
| `Calendar.FormatUs` | generate_data.py:284 | "%m/%d/%Y" text has ten characters with slashes at positions 2 and 5 |
| `Calendar.FormatIso` | generate_data.py:329 | "%Y-%m-%d" text has ten characters with dashes at positions 4 and 7 |
| `Calendar.ParseUs` | generate_data.py:329 | accepts only ten-character text with slashes at positions 2 and 5; its meaning is fixed by the two US round-trip lemmas |
| `Calendar.ParseIso` | generate_data.py:329 | accepts only ten-character text with dashes at positions 4 and 7; its meaning is fixed by the two ISO round-trip lemmas |
| `Calendar.ParseUsOfFormatUs` | generate_data.py:282-329 | a date written as "%m/%d/%Y" and parsed back is the same date |
| `Calendar.FormatUsOfParseUs` | generate_data.py:329 | every string accepted as MM/DD/YYYY is exactly how that date is written |
| `Calendar.ParseIsoOfFormatIso` | generate_data.py:329 | an ISO date written and parsed back is the same date |
| `Calendar.FormatIsoOfParseIso` | generate_data.py:329 | every string accepted as ISO is exactly how that date is written |
| `Calendar.FormatsDisjoint` | generate_data.py:329 | no text is both a US-style and an ISO date, so the order of the two readings does not matter |
| `Cleaner.FirstIndex` | generate_data.py:320 | the position of the first occurrence of a row |
| `Cleaner.DropDuplicates` | generate_data.py:320 | no two rows equal, the same set of rows as the input, never more rows |
| `Cleaner.DropDuplicatesKeepsOrder` | generate_data.py:320 | the kept rows appear in the order of their first occurrences (keep="first") |
| `Cleaner.DropDuplicatesOfDistinct` | generate_data.py:320 | data without duplicates is returned unchanged |
| `Cleaner.DropDuplicateRows` | generate_data.py:320 | the loop with a seen-set equals the specification |
| `Cleaner.TitlePlan` | generate_data.py:325 | the plan name becomes the title case of the input name (already in title case, so a second pass changes nothing) and no other column changes |
| `Cleaner.ParseJoinCell` | generate_data.py:329 | a timestamp is kept; text is read iff it is MM/DD/YYYY or ISO, and the date read is one whose rendering is that text |
| `Cleaner.StampJoin` | generate_data.py:329 | succeeds iff the join cell is readable; the join date then becomes the timestamp of the day read, no other column changes, and a timestamp row is unchanged |
| `Cleaner.FillPrice` | generate_data.py:336-342 | only a null price of a plan in the table changes, and it becomes that plan's price; nothing else changes |
| `Cleaner.FillRegion` | generate_data.py:347-348 | a null region becomes "Unknown"; every other row is unchanged |
| `Cleaner.RepairDates` | generate_data.py:353-361 | afterwards no cancellation precedes the join; an offending row loses date and reason and gets is_churned 0; other rows are untouched |
| `Cleaner.NormalizeRow` | generate_data.py:325-361 | succeeds iff the join date is readable. The row is then in clean form: plan name title-cased from the input, join date stamped with the day read. Only plan name, join date, price, region and the three churn-outcome columns can change |
| `Cleaner.NormalizeRowFills` | generate_data.py:336-361 | on success: a present price is kept and a null one becomes the title-cased plan's price (null for an unknown plan); a null region becomes "Unknown" and a present one is kept; a cancellation before the join date is nulled with its reason and is_churned set to 0, and otherwise all three churn columns are kept |
| `Cleaner.NormalizeCleanRow` | generate_data.py:325-361 | a row already in clean form is left as it is |
| `Cleaner.NormalizeRowIdempotent` | generate_data.py:325-361 | normalising twice equals normalising once |
| `Cleaner.NormalizeAll` | generate_data.py:325-361 | steps 2-6 over all rows keep the row count on success |
| `Cleaner.NormalizeAllResult` | generate_data.py:325-361 | on success every row is normalised in place and the count is kept; a failure is some row's failure |
| `Cleaner.NormalizeAllSuccess` | generate_data.py:325-361 | if every row normalises, the batch succeeds with exactly those rows |
| `Cleaner.NormalizeAllFailure` | generate_data.py:329 | the batch fails with the error of the first unreadable join date |
| `Cleaner.StandardizePlanNames` | generate_data.py:325 | the column pass title-cases every row's plan |
| `Cleaner.StandardizeJoinDates` | generate_data.py:329 | the column pass stamps every row, or fails at the first unreadable one |
| `Cleaner.FillMissingPrices` | generate_data.py:336-342 | the column pass applies the price fill to every row |
| `Cleaner.FillMissingRegions` | generate_data.py:347-348 | the column pass applies the region fill to every row |
| `Cleaner.RepairCancellationDates` | generate_data.py:353-361 | the column pass applies the date repair to every row |
| `Cleaner.Clean` | generate_data.py:291-366 | on success the output has exactly as many rows as step 1 keeps, never more than the input |
| `Cleaner.CleanData` | generate_data.py:291-366 | the six steps as clean_data runs them equal the specification `Clean` |
| `Cleaner.CleanOutput` | generate_data.py:316-365 | only step 1 changes the row count, and every clean row is in clean form |
| `Cleaner.CleanFailsIff` | generate_data.py:329 | cleaning fails iff some raw join date is text in neither format |
| `Cleaner.IsoJoinDateRead` | generate_data.py:329 | the text "2023-05-10" is read as 2023-05-10 |
| `Cleaner.CancelBeforeJoinIsRepaired` | generate_data.py:353-361 | a row joined "2023-05-10" and cancelled 2023-01-01 is kept, with a null cancellation date and reason and is_churned 0 |
| `Pipeline.PlanNamesTitled` | generate_data.py:46-50 | the table's plan names are already in title case |
| `Pipeline.RepairUndoesDefects` | generate_data.py:265-361 | steps 2-6 turn a generated row with any mix of the four defects back into the row, with "Unknown" if its region was nulled |
| `Pipeline.UsDateReadBack` | generate_data.py:282-329 | the US-style text written by the date defect is read back as the same day |
| `Pipeline.DirtyRowNormalizes` | generate_data.py:260-361 | every dirty row normalises to the restored input row it comes from |
| `Pipeline.GeneratedRowsStamped` | generate_data.py:183-201 | generated join dates are timestamps, which the date defect requires |
| `Pipeline.CleaningGeneratedDataSucceeds` | generate_data.py:329 | cleaning the dirty version of generated data never fails |
| `Pipeline.CleanRowsComeFromInput` | generate_data.py:291-366 | every clean row is an input row, with "Unknown" at most in place of its region |
| `Pipeline.InputRowsSurviveCleaning` | generate_data.py:291-366 | no customer is lost: every restored input row is in the clean output |
| `Pipeline.CopyWithNullPriceSurvives` | generate_data.py:320-342 | a row and its copy with a nulled price both survive step 1 and come out as the same row twice |

## Left out

- Randomness: `random.choices`, `randint`, `random.random`, `np.random.normal`/`poisson` and `rng.choice` are parameters, each constrained to the range its call can return. Weights, distributions and seeding are not modelled.
- Floating point:
  - The churn weights are summed in exact hundredths. Python sums binary floats, so a coin landing exactly on a sum that is not representable (such as 0.1 + 0.2) may compare differently.
  - `int(len * 0.05)` and the other sample sizes are modelled as `len * 5 / 100`.
  - Logins and session minutes are integers in tenths.
- `Churn.ChurnProbability`: the model states the bounds, and one lemma per factor states its effect, all in exact hundredths rather than float arithmetic.
- `Calendar.FormatUs`: strftime's `%Y` for years below 1000 is not modelled. All dates here lie in 2021-2024, where every field has its full width.
- `Text.Lower`: str.lower and str.title are modelled on ASCII letters only. The plan names are ASCII.
- `Cleaner.ParseJoinCell`: pandas' general `to_datetime(format="mixed")` inference is reduced to the two formats the pipeline produces, ISO and MM/DD/YYYY. Any other text is an error. The `errors="coerce"` conversion of `cancellation_date` is the identity here, because the model always holds cancellation dates as day numbers or null.
- `Defects.Inject`: the date defect leaves `MM/DD/YYYY` text in the `join_date` cell, as the comment at generate_data.py:280 says it does. pandas' dtype handling when `.loc` assigns strings into a datetime64 column (generate_data.py:282-285) is not modelled. If pandas parses those strings back into timestamps, month first, the cell holds the same day as before, as a timestamp. A copy whose only extra defect is the date defect is then an exact duplicate, and step 1 drops it. `CopyIsDuplicateIff` and `CopyEqualsOriginIff` state the behaviour with the text kept. The other three defects are unaffected.
- `Defects.AddDirtyData`: the input's join dates must be timestamps (`AllStamped`). This holds for generated data (`GeneratedRowsStamped`). strftime on text would raise, and the source never passes text.
- The `features` column of the plan table is not modelled: nothing in the core reads it.
- CSV reading and writing, `os.makedirs`, `main` and the console summaries are not modelled. The exception is the KeyError the summary of `generate_customers` raises for n = 0, which is `GenerateCustomers`' failure.
- churn_analysis.py is not part of this model. It is analysis and plotting over floating-point statistics.
