# psy-saas scoring and practice core in Dafny

This project models the deterministic core of psy-saas, a practice-management application for psychologists. The core has two parts.

**Psychometric scoring.** This part covers:
- the Vineland adaptive-behaviour scoring engine: the item floor, raw scores, NSP/NA counting, the age brackets, the V-scale and standard-score norm lookups, the complete score sheet and the pairwise domain and subdomain comparisons;
- the Vineland record rules;
- Beck depression inventory scoring and its suicide alert;
- STAI state/trait anxiety scoring with reversed items;
- d2-R attention-test counting and the position numbering of its reference symbols.

**Practice management.** This part covers:
- consultation reschedule, cancel and finish;
- session-pack counters;
- the patient's age in whole years;
- phone and birth-date validation;
- licence plan limits and activity;
- the score-sheet template filters.

## Modelling conventions

- A database table is a sequence of rows in the table's ordering. A `filter(...).first()` is the first row satisfying the filter (`Lookup.First`). A `.get(...)` on a table with `unique_together` is a first-match search, and the uniqueness is a predicate on the rows.
- Objects whose methods assign fields are classes: `Beck.TestBeck`, `Stai.TestStai`, `D2rModels.SymboleReference`, `CabinetModels.Consultation`, `CabinetModels.PackMindOffice`, `Accounts.License` and `VinelandRecords.QuestionVineland`. Each method's `modifies` clause names exactly the fields it changes, and `save()` itself is not modelled.
- Loops in the source are `while` or `for` loops proved against a specification function:
  - the item floor;
  - the d2-R line counting;
  - the score-sheet assembly;
  - the pair loops of the comparison generators;
  - the grouping by domain;
  - the template-filter sums;
  - `split_notes`.
- Instants are integers (microseconds), and the clock reading is a parameter `now`. Calendar dates are `(year, month, day)` compared lexicographically.
- A Python exception the source does not catch is an `Err` of a `Result`: an unguarded `int()`, a `SousDomain.objects.get` with no or several matches, or a `+` on `None`. An exception it does catch is the value the handler returns.
- Python's `str` operations are written out in module `Text`: `strip` with Python's whitespace set, `split` on one character, `replace`, `int()` with signs and underscores, and `str(int)`.

## Model

| member | source | states |
|---|---|---|
| Lookup.First | tests_psy/views/vineland.py:240-244 | The row returned satisfies the filter and no earlier row does; `None` exactly when no row satisfies it (the meaning of `filter(...).first()`). |
| Lookup.FirstIndex | tests_psy/views/vineland.py:240-244 | The index found holds a row satisfying the filter and every earlier row fails it; `None` exactly when no row satisfies it. |
| Text.ParseIntOfIntToString | tests_psy/views/vineland.py:1432-1443 | `int(str(n)) == n` for every integer: the numeral printer and the parser the threshold cells go through are inverse. |
| Text.SplitJoin | tests_psy/views/d2r.py:93 | Joining the pieces of `s.split(c)` with `c` gives `s` back, and no piece holds `c`. |
| Text.LStripMeaning | tests_psy/templatetags/custom_filters.py:72-74 | `lstrip()` keeps a suffix, removes only Python whitespace, and what it keeps does not start with whitespace. |
| Text.RStripMeaning | tests_psy/templatetags/custom_filters.py:72-74 | `rstrip()` keeps a prefix, removes only Python whitespace, and what it keeps does not end with whitespace. |
| Text.ParseIntOfSigned | tests_psy/templatetags/custom_filters.py:36 | `int()` of a text that strips to '-' and a digit string (underscores allowed between digits) is minus the digits' value. |
| Text.NatToString | tests_psy/templatetags/custom_filters.py:88 | `str(n)` of a non-negative integer is a non-empty string of digits. |
| Text.FilterDigits | cabinet/forms.py:54 | The result is all digits and no longer than the input. What it is exactly, the input's digits in order, is stated by `FilterDigitsConcat` and `FilterDigitsChar`. |
| Text.FilterDigitsConcat | cabinet/forms.py:54 | The digits of `a + b` are the digits of `a` followed by those of `b`. |
| Text.FilterDigitsChar | cabinet/forms.py:54 | One character is kept exactly when it is a digit; with the concatenation rule this fixes the result as the input's digits in their order. |
| Text.FilterDigitsOfDigits | cabinet/forms.py:54 | Filtering the digits of an all-digit text gives the text back. |
| Text.LowerAscii | cabinet/models.py:510 | `lower()` keeps the length and lowers each ASCII capital by 32 code points; in this ASCII model every other character is kept. |
| Text.ReplaceIsCharSubst | tests_psy/models/vineland.py:180-181 | `s.replace(c, rep)` for a one-character pattern replaces each occurrence of `c` by `rep`, character by character. |
| Text.CharSubstOneForOne | tests_psy/views/vineland.py:256 | Replacing one character by one other keeps the length and every other character in place, and leaves no occurrence of the replaced character. |
| VinelandAge.DomainBracket | tests_psy/views/vineland.py:55-64 | The label is one of the five domain brackets; it is '1-2' exactly for ages up to 2 and '50-90' exactly from 50. |
| VinelandAge.IntervalBracket | tests_psy/views/vineland.py:66-94 | Ages 1 to 6 get a label of their own year, which parses back to the age; ages below 1 and from 50 fall to the final '50-90'. |
| VinelandAge.GetSimpleAgeRange | tests_psy/views/vineland.py:922-941 | '1' below two years; from seven years on, the interval bracket of `get_age_tranches`. |
| VinelandAge.GetAgeTranches | tests_psy/views/vineland.py:51-96 | Below one year both brackets are `None`; otherwise the result is the domain bracket ('1-2', '3-6', '7-18', '19-49', '50-90') and the interval bracket. |
| VinelandAge.SimpleRangeIsIntervalBracket | tests_psy/views/vineland.py:922-941 | `get_simple_age_range`, written with its own chain of bounds, returns the interval bracket of `get_age_tranches` for every age from one year; below that it returns '1'. |
| VinelandAge.DomainBracketCoversAge | tests_psy/views/vineland.py:55-64 | For ages 1 to 90 the domain bracket label, read back as a range "a-b", contains the age. |
| VinelandAge.IntervalBracketCoversAge | tests_psy/views/vineland.py:66-94 | For ages 1 to 90 the interval bracket label (a single year or "a-b") contains the age. |
| VinelandRaw.ItemFloor | tests_psy/views/vineland.py:98-108 | Fewer than four answers give floor 0; a nonzero floor is the number of the last answer of some run of four consecutive '2' answers, minus 3. |
| VinelandRaw.CalculateItemPlancher | tests_psy/views/vineland.py:98-108 | The run-counter loop returns the window-based floor: the fourth item's number − 3 at the first index ending four consecutive '2', else 0. |
| VinelandRaw.ItemFloorCharacterised | tests_psy/views/vineland.py:98-108 | With no run of four '2' the floor is 0; when index k ends the first such run the floor is that item's number − 3. |
| VinelandRaw.LaterRunsIgnored | tests_psy/views/vineland.py:104-105 | Once a run of four '2' has occurred, any answers appended after it leave the floor unchanged. |
| VinelandRaw.ScoreSubdomain | tests_psy/views/vineland.py:145-182 | The raw score is twice the floor, plus the values of the '1' and '2' answers of items numbered above the floor, plus the NSP count; the subdomain is flagged to redo exactly from three NSP answers; the floor is `calculate_item_plancher` of the answers; NSP and NA answers together number at most the answers; one item line per answer. |
| VinelandRaw.ItemFloorBounds | tests_psy/views/vineland.py:98-108 | Over strictly increasing non-negative item numbers (gaps allowed) the floor is never negative, and it is 0 or at most the last item number − 3; with items numbered 1, 2, 3, ... it is at most the number of answers. |
| VinelandRaw.CountsDisjoint | tests_psy/views/vineland.py:149-152 | No answer is both NSP and 'NA': the two counts add up to at most the number of answers of the subdomain. |
| VinelandRaw.RawScoreBounds | tests_psy/views/vineland.py:155-164 | Over strictly increasing non-negative item numbers the raw score is at least the NSP count, which is non-negative, and at least twice the floor; it is 0 with no answers and otherwise at most twice the last item number plus the NSP count; with items numbered 1, 2, 3, ... at most twice the number of answers plus the NSP count. |
| VinelandRaw.RawScoreIsBasalRule | tests_psy/views/vineland.py:155-164 | For any answers, floor×2 + sum_1_2 + nsp is the basal rule over item numbers: 2 for every item number 1 to the floor (answered or not), each later '1' or '2' its value, plus the NSP count. Over increasing numbers from 1 the unanswered credit is never negative; with no gaps it is zero. |
| VinelandRaw.GapsAreCredited | tests_psy/views/vineland.py:155-164 | Items 1, 5, 6 and 7 answered '2' give floor 4 and raw score 14: the unanswered items 2 to 4 are credited 2 each. |
| VinelandRaw.RetestThreshold | tests_psy/views/vineland.py:167 | `a_refaire` holds exactly when three or more answers are NSP; two NSP answers leave it off. |
| VinelandRaw.ResponsesOf | tests_psy/views/vineland.py:143 | The subdomain's answers come from the response list, belong to that subdomain and are no more than the list. |
| VinelandRaw.ResponsesOfKeepsAll | tests_psy/views/vineland.py:143 | An answer is selected exactly when it is in the list and of the subdomain, and it occurs in the selection as often as in the list; answers of other subdomains never occur. |
| VinelandRaw.ResponsesOfConcat | tests_psy/views/vineland.py:143 | The selection keeps the list's order: selecting from a concatenation concatenates the selections. |
| VinelandRaw.ResponsesOfSingle | tests_psy/views/vineland.py:143 | A one-answer list keeps its answer exactly when it is of the subdomain. |
| VinelandRaw.Items | tests_psy/views/vineland.py:176-182 | The item list has one `(numero, valeur)` pair per answer, in order. |
| VinelandRaw.ScoreResponses | tests_psy/views/vineland.py:145-182 | One subdomain's entry, with the floor from the run-counter loop, is the subdomain score of its answers: raw score, floor, NSP and NA counts, sum_1_2, retest flag and item list. |
| VinelandRaw.ScoreDomain | tests_psy/views/vineland.py:141-182 | The inner loop gives the domain's block: one entry per subdomain, in subdomain order, each scored from that subdomain's answers. |
| VinelandRaw.CalculateAllScores | tests_psy/views/vineland.py:111-185 | The nested loops give one block per domain, in domain order, each holding the scored entry of every subdomain computed from that subdomain's answers. |
| VinelandNorms.DaysNeverDecide | tests_psy/views/vineland.py:199-215 | The day-precision branch accepts exactly the rows the year/month window accepts: each day disjunct implies the month disjunct before it. |
| VinelandNorms.FindEchelleV | tests_psy/views/vineland.py:187-216 | A V-scale row found is of the subdomain, holds the raw score in its range and the age in its (years, months) window, and no earlier row matches; `None` exactly when no row matches. |
| VinelandNorms.GetDomainMapping | tests_psy/views/vineland.py:219-244 | A standard-score row found has the age bracket and, when the name contains a domain word, holds the V-scale sum in that domain's column; `None` exactly when no row matches, and always for an absent bracket. |
| VinelandNorms.DomainColumnsOfDomainNames | tests_psy/views/vineland.py:223-242 | Each of the four domain names selects its own column, the earlier `elif` tests not intercepting it. |
| VinelandNorms.SousDomaineByName | tests_psy/views/vineland.py:266 | The subdomain lookup by name succeeds exactly when one subdomain carries the name, and returns that subdomain's id. |
| VinelandNorms.FindIcSous | tests_psy/views/vineland.py:282-288 | The subdomain confidence-interval row found has the interval bracket, the confidence level and the subdomain; `None` exactly when there is none. |
| VinelandNorms.NiveauOfEchelleV | tests_psy/views/vineland.py:291-296 | The adaptive level found contains the V-scale score in its band; `None` exactly when no band does. |
| VinelandNorms.FindAgeEquivalent | tests_psy/views/vineland.py:299-307 | The age-equivalent row found is of the subdomain and either is open-ended with minimum equal to the raw score or holds the raw score in its range; `None` exactly when none matches. |
| VinelandNorms.FindIcDomaine | tests_psy/views/vineland.py:322-330 | The domain confidence-interval row found has the bracket, level and domain name; `None` exactly when there is none. |
| VinelandNorms.NiveauOfNoteStandard | tests_psy/views/vineland.py:333-338 | The domain adaptive level found contains the standard score in its band; `None` exactly when none does. |
| VinelandNorms.SlugReplacesSpaces | tests_psy/views/vineland.py:256 | `name.replace(' ', '_')` has the name's length, turns every space into '_' and keeps every other character, so no space is left. |
| VinelandNorms.ScoreSubdomains | tests_psy/views/vineland.py:265-309 | The inner loop gives the subdomain lines of the domain (the first unknown name aborting), and the accumulated sum is the sum of the listed V-scale scores. |
| VinelandNorms.CalculateDomainScores | tests_psy/views/vineland.py:247-344 | The outer loop builds the sheet of the specification function: one block per domain except the problem behaviours, or the first lookup error. |
| VinelandNorms.LinesComeFromRows | tests_psy/views/vineland.py:268-272 | Every listed subdomain line carries the V-scale score of a table row matching that subdomain, raw score and age, and there are at most as many lines as subdomains. |
| VinelandNorms.DomainSumBounds | tests_psy/models/vineland.py:229-233 | With V-scale scores validated to 1..24, a domain's sum is at least the number of listed lines and at most 24 per subdomain. |
| VinelandNorms.DomainStandardScoreBounds | tests_psy/models/vineland.py:265-314 | With the standard-score table validated, a domain score's standard score lies in 20..160, and a named domain whose V-scale sum exceeds 72 gets no domain score. |
| VinelandNorms.ScoredDomains | tests_psy/views/vineland.py:253 | The domains scored are domains of the raw scores, none of them the problem-behaviour domain. |
| VinelandNorms.SheetShape | tests_psy/views/vineland.py:247-344 | The sheet lists the scored domains in order with their subdomain lines; a domain score is present exactly when a standard-score row matches the lines' V-scale sum, and carries that sum. |
| VinelandNorms.WorkedSheet | tests_psy/views/vineland.py:247-344 | On a concrete table set (age 6;3, raw score 42, 90% confidence), the subdomain line has V-scale score 15, the interval 4 of its 90% row, the level 'Adapté' of the second level band (the first does not hold 15) and the age equivalent '6'; the domain has standard score 95, rank '37', the domain interval 7 with composite 88 and the level 'Adapté'. |
| VinelandNorms.WorkedLineOf | tests_psy/views/vineland.py:266-310 | The worked subdomain line: the V-scale row, the 90% interval row of bracket '6' (not the 95% row before it), the level band holding 15 and the age-equivalent row holding 42 are the ones found. |
| VinelandNorms.WorkedDomainScore | tests_psy/views/vineland.py:312-339 | The worked domain score: V-scale sum 15 maps to standard score 95, rank '37', the domain's 90% interval 7 with composite 88 and the level band holding 95. |
| VinelandCompare.ExtractNumberOfPlus | tests_psy/views/vineland.py:1436-1437 | A cell "N+" stands for N. |
| VinelandCompare.ExtractNumberOfRange | tests_psy/views/vineland.py:1438-1439 | A cell "A-B" stands for its lower end A. |
| VinelandCompare.ExtractNumberOfNumeral | tests_psy/views/vineland.py:1440-1441 | A plain numeral cell stands for its value. |
| VinelandCompare.ExtractNumber | tests_psy/views/vineland.py:1432-1443 | An empty cell reads as 9999. A failure is a `ValueError`, and only on a text ending with '+' or holding a '-': the two readings whose `int()` is not guarded. |
| VinelandCompare.ExtractNumberOfText | tests_psy/views/vineland.py:1442-1443 | A non-empty cell with no digit, no '-' and no final '+' stands for 9999. |
| VinelandCompare.ExtractNumberOfNegative | tests_psy/views/vineland.py:1438-1439 | A cell spelling a negative number raises `ValueError`, since the piece before its '-' is empty. |
| VinelandCompare.DirectedComparison | tests_psy/views/vineland.py:1464-1469 | One `.get(...)`: a row found has the bracket, significance level and both ids in this order; `None` exactly when there is none. |
| VinelandCompare.FindComparison | tests_psy/views/vineland.py:1461-1479 | The row found has the key in one of the two orders, and the reversed order only when the direct order has no row; `None` exactly when neither order has one. `find_sous_domaine_comparison` is the same function on the subdomain table. |
| VinelandCompare.FindComparisonSymmetric | tests_psy/views/vineland.py:1461-1479 | With unique keys and at most one stored orientation, looking up (a, b) and (b, a) gives the same row. |
| VinelandCompare.DirectedFrequency | tests_psy/views/vineland.py:1485-1489 | One `.get(...)` on a frequency table: the row found has the bracket and both ids in this order; `None` exactly when there is none. |
| VinelandCompare.FrequencyBand | tests_psy/views/vineland.py:1446-1458 | No frequency row gives no band. The 5%, 10% or 16% band is given only when that column's cell decides: it is non-empty, reads as a threshold and the difference reaches it. |
| VinelandCompare.FindFrequency | tests_psy/views/vineland.py:1482-1498 | The frequency row found has the key in one of the two orders, the reversed one only when the direct one is missing; `None` exactly when neither exists. `find_sous_domaine_frequency` is the same function on the subdomain table. |
| VinelandCompare.FindFrequencySymmetric | tests_psy/views/vineland.py:1482-1498 | With unique keys and one stored orientation, the frequency lookup is symmetric in the pair. |
| VinelandCompare.BandCell | tests_psy/views/vineland.py:1447-1458 | A deciding index is a position of the row; the full characterisation is in the three lemmas below. |
| VinelandCompare.BandCellDecides | tests_psy/views/vineland.py:1452-1457 | Cell k decides exactly when it is non-empty, parses to a threshold the difference reaches, and every earlier cell is empty or parses to a threshold above the difference. |
| VinelandCompare.BandCellNone | tests_psy/views/vineland.py:1452-1458 | No band exactly when every cell is empty or parses to a threshold above the difference. |
| VinelandCompare.BandCellRaises | tests_psy/views/vineland.py:1452-1457 | Reading the row raises exactly when some non-empty cell does not parse and every cell before it is empty or parses to a threshold above the difference. |
| VinelandCompare.FrequencyBandCharacterised | tests_psy/views/vineland.py:1447-1458 | No frequency row gives no band. Otherwise the result is '5%', '10%' or '16%' exactly when that column is the first deciding cell, no band exactly when no cell decides or raises, and `ValueError` exactly when a raising cell comes before any deciding one. |
| VinelandCompare.BandCellMonotone | tests_psy/views/vineland.py:1452-1457 | A larger difference never raises where a smaller one does not, and stops at the same cell or an earlier, rarer one. |
| VinelandCompare.FrequencyBandMonotone | tests_psy/views/vineland.py:1447-1458 | A larger difference is never in a more common band ('5%' rarest, then '10%', '16%', then none), and it keeps a band the smaller difference has. |
| VinelandCompare.PairRecord | tests_psy/views/vineland.py:1552-1582 | The entry keeps both notes: the difference is their absolute difference and the sign matches their order. It is significant exactly when a required-difference row exists and the difference reaches it, and `None` exactly when there is no such row. |
| VinelandCompare.PairRecordSwap | tests_psy/views/vineland.py:1558-1569 | Comparing b with a instead of a with b succeeds in the same cases, swaps the notes, flips the sign and keeps difference, required difference, significance and band. |
| VinelandCompare.GenerateDomainComparisons | tests_psy/views/vineland.py:1543-1584 | The list is the entry of every domain pair i < j, in loop order, or the first error. |
| VinelandCompare.GenerateSousDomaineComparisons | tests_psy/views/vineland.py:1587-1640 | The subdomains are grouped by domain in order of first appearance, and each group lists the entry of every pair within it. |
| VinelandCompare.GenerateInterdomaineComparisons | tests_psy/views/vineland.py:1643-1694 | The list is the entry of every pair i < j of subdomains of different domains, in loop order. |
| VinelandPairs.CompareAll | tests_psy/views/vineland.py:1548-1549 | The two nested index loops produce the entries of exactly the visited pairs, in visiting order, stopping at the first error. |
| VinelandPairs.CompareRow | tests_psy/views/vineland.py:1549-1582 | The inner loop over j > i appends the entries of row i's selected pairs to those of the earlier rows, or stops with the first pair's error. |
| VinelandPairs.PairsExactlyOnce | tests_psy/views/vineland.py:1548-1549 | A pair is visited exactly when i < j and it is selected (different domains for the inter-domain list), and the visited pairs are in strictly increasing lexicographic order, hence each exactly once. |
| VinelandPairs.AllPairsCount | tests_psy/views/vineland.py:1548-1549 | n scores give n(n−1)/2 domain or intra-domain comparisons. |
| VinelandPairs.RecordsOk | tests_psy/views/vineland.py:1572-1582 | A successful list has one entry per pair, the k-th being the entry of the k-th pair. |
| VinelandPairs.RecordsErr | tests_psy/views/vineland.py:1561-1570 | A failed list fails with the error of the first pair whose entry raises. |
| VinelandPairs.GroupByDomain | tests_psy/views/vineland.py:1590-1595 | The grouping loop builds the insertion-ordered dictionary of groups. |
| VinelandPairs.GroupsMeaning | tests_psy/views/vineland.py:1590-1595 | There is one group per domain, in order of first appearance, and each group holds exactly that domain's subdomains in sheet order. |
| VinelandPairs.DomainOrder | tests_psy/views/vineland.py:1590-1595 | The group keys are distinct and are exactly the domains that occur. |
| VinelandPairs.Members | tests_psy/views/vineland.py:1590-1595 | A group holds only subdomains of the sheet that belong to its domain. |
| VinelandRecords.CleanReponse | tests_psy/models/vineland.py:89-92 | The answer is refused exactly when it is 'NA' on a question that does not allow it. |
| VinelandRecords.CleanPlage | tests_psy/models/vineland.py:129-132 | An item range is accepted exactly when its last item is not before its first. |
| VinelandRecords.GetPlageAge | tests_psy/models/vineland.py:184-190 | The range found is of the item's subdomain and holds the item number, and no earlier row does; `None` exactly when no range covers the item. |
| VinelandRecords.NiveauLabel | tests_psy/models/vineland.py:414-420 | `get_niveau_display`: each of the five level codes gets a non-empty label different from the code, and any other code is shown as itself, as a Django choice display falls back to the value. |
| VinelandRecords.QuestionVineland.Save | tests_psy/models/vineland.py:179-182 | Saving rewrites the note in place by the normalisation, and nothing else changes. |
| VinelandRecords.NormaliseNote | tests_psy/models/vineland.py:179-182 | A note is present after saving exactly when it was present before, and an empty note is kept as it is. |
| VinelandRecords.NormaliseNoteIsNoteChars | tests_psy/models/vineland.py:180-181 | The two `replace` passes are the per-character rewriting: line feed to '\|', carriage return deleted. |
| VinelandRecords.NormaliseNoteCleanAndIdempotent | tests_psy/models/vineland.py:179-182 | A stored non-empty note holds no line feed or carriage return, and saving it again leaves it unchanged. |
| VinelandRecords.IsComplete | tests_psy/models/vineland.py:44-48 | With no question the protocol is complete, and it is never complete with fewer responses than questions. |
| VinelandRecords.CompleteIffAllAnswered | tests_psy/models/vineland.py:44-48 | With responses unique per question and all referring to existing questions, `is_complete` holds exactly when every question is answered. |
| VinelandRecords.AgeEquivalentDisplay | tests_psy/models/vineland.py:473-480 | The text is never empty. A special age shows one of the two special labels, and '-' is shown when there is neither a special age nor a number of years. |
| VinelandRecords.AgeEquivalentReadsBack | tests_psy/models/vineland.py:473-480 | A special age wins and names its bound; otherwise years with nonzero months read back as both numbers, years alone as the year; "-" is shown exactly when neither is given. |
| VinelandRecords.YearsAndMonthsReadBack | tests_psy/models/vineland.py:477 | The text "Y an(s) et M mois" splits into five words, and its first and fourth words parse back to Y and M. |
| Beck.MaxChecked | tests_psy/models/beck.py:178-186 | The item score is 0 with no checked phrase, else a checked phrase's score at least as high as every other. |
| Beck.ReponseItemBeck.CalculerScore | tests_psy/models/beck.py:178-186 | Stores and returns the highest checked score (0 when none is checked). |
| Beck.MaxCheckedBounds | tests_psy/models/beck.py:178-186 | With phrase scores 0..3 the item score lies in 0..3. |
| Beck.TestBeck.CalculerScoreTotal | tests_psy/models/beck.py:89-96 | The total is the sum of the item scores; the level and the alert are recomputed from the answers alone, so a second call leaves the same state. |
| Beck.TotalBounds | tests_psy/models/beck.py:89-96 | With item scores 0..3, the total lies between 0 and 3 per answered item (0..63 for 21 items). |
| Beck.GetNiveauDepression | tests_psy/models/beck.py:98-107 | The rank of the level (minimal 0 to severe 3) is the number of the thresholds 14, 20 and 29 the total reaches. |
| Beck.NiveauBands | tests_psy/models/beck.py:98-107 | Each depression level holds exactly its band of totals: ≤13, 14..19, 20..28, ≥29. |
| Beck.NiveauMonotone | tests_psy/models/beck.py:98-107 | A higher total never gives a milder level. |
| Beck.NiveauDisplayLabels | tests_psy/models/beck.py:109-117 | Every stored level has its label, and an unscored test shows 'Non évalué'. |
| Beck.NiveauDisplay | tests_psy/models/beck.py:109-117 | 'Non évalué' exactly for a code outside the four levels; 'severe' shows 'Dépression sévère'. |
| Beck.TestBeck.VerifierAlerteSuicide | tests_psy/models/beck.py:119-125 | Sets the alert from the answer to item 9. |
| Beck.AlerteSuicide | tests_psy/models/beck.py:119-125 | An alert implies an answer to item 9 that scores 2 or more, and there is no alert when item 9 is unanswered. |
| Beck.AlerteSuicideMeaning | tests_psy/models/beck.py:119-125 | With one answer per item, the alert holds exactly when an answer to item 9 exists and scores 2 or more; it is off when item 9 is unanswered. |
| Beck.SameItem | tests_psy/models/beck.py:172 | Under `unique_together = ['test', 'item']`, two answers to the same item are the same answer. |
| Stai.ReponseItemStai.CalculerScore | tests_psy/models/stai.py:365-391 | Stores and returns 5 − value for a reversed item and the value otherwise, which stays in 1..4 for answers 1..4. |
| Stai.ScoreCalcule | tests_psy/models/stai.py:377-385 | A reversed item's score and its value add up to 5, a normal item scores its value, and answers 1..4 keep the score in 1..4. |
| Stai.ReversalOnScale | tests_psy/models/stai.py:377-385 | Reversal maps 1..4 onto itself, is its own inverse and reverses the order; a normal item scores the value. |
| Stai.TestStai.CalculerScores | tests_psy/models/stai.py:149-175 | The state and trait scores are the sums of the computed scores of their own sections, and each level is the level of its score. |
| Stai.SumSection | tests_psy/models/stai.py:155-157 | The filtered sum over one section, computed answer by answer. |
| Stai.SectionScoreConcat | tests_psy/models/stai.py:155-157 | A section sum splits over a concatenation of answer lists. |
| Stai.SectionIgnoresOthers | tests_psy/models/stai.py:155-169 | An answer of the other section never changes a section's score. |
| Stai.SectionScoreBounds | tests_psy/models/stai.py:155-157 | With scores 1..4, a section's sum lies between its number of answers and four times it. |
| Stai.CompleteSectionIsValid | tests_psy/models/stai.py:179-205 | Twenty answers scored 1..4 sum to 20..80, so the section is never 'invalide'. |
| Stai.GetNiveauAnxiete | tests_psy/models/stai.py:179-205 | 'invalide' exactly below 20; the rank of the level is the number of the thresholds 20, 36, 46, 56 and 66 the score reaches. |
| Stai.NiveauMonotone | tests_psy/models/stai.py:179-205 | A higher score never gives a lower anxiety level. |
| Stai.NiveauDisplayLabels | tests_psy/models/stai.py:209-229 | Every level the scoring stores has its label, and an unscored test shows 'Non évalué'. |
| Stai.NiveauDisplay | tests_psy/models/stai.py:209-229 | 'Non évalué' exactly for a code outside the six levels; 'Score invalide' exactly for 'invalide'. |
| D2rModels.Cct | tests_psy/models/d2r.py:76-79 | The `cct` property is the stored number of correct answers: an accessor, whose meaning comes from `D2rViews.SubmissionMatchesRecord`. |
| D2rModels.Ec | tests_psy/models/d2r.py:81-84 | The `ec` property is the stored number of commission errors: an accessor, like `cct`. |
| D2rModels.Eo | tests_psy/models/d2r.py:86-89 | The omission count, 0 when the field is null. |
| D2rModels.Cc | tests_psy/models/d2r.py:91-94 | Concentration capacity plus both kinds of error gives the processed targets. |
| D2rModels.EPercentage | tests_psy/models/d2r.py:96-101 | 0 when no correct answer is counted, and never negative otherwise. |
| D2rModels.LastPosition | tests_psy/models/d2r.py:130-135 | `None` exactly when the (page, line) holds no symbol, else the highest stored position of that line. |
| D2rModels.SymboleReference.Save | tests_psy/models/d2r.py:128-137 | A symbol not yet stored gets one past the last position of its line, or 1; a stored symbol keeps its position. |
| D2rModels.NewPositionFresh | tests_psy/models/d2r.py:128-137 | The new position is positive and lies after every position of its line, so adding the symbol keeps (page, line, position) unique. |
| D2rModels.InsertAllUnique | tests_psy/models/d2r.py:145 | Under any sequence of inserts, positions stay unique per (page, line) and positive. |
| D2rViews.ParseSelected | tests_psy/views/d2r.py:92-93 | The parse fails (`ValueError`) exactly when a non-empty piece between commas is not an integer; otherwise the ids are exactly the values of the non-empty pieces. |
| D2rViews.ParseIdsMeaning | tests_psy/views/d2r.py:93 | The same for any list of pieces: a failure exactly on a non-empty non-integer piece, else exactly the values of the non-empty pieces. |
| D2rViews.ParseSelectedOfIdsText | tests_psy/views/d2r.py:92-93 | Reading back a comma-joined list of ids gives exactly the set of those ids; an empty text gives the empty set. |
| D2rViews.SplitIdsText | tests_psy/views/d2r.py:93 | Splitting a comma-joined list of ids at ',' gives back one numeral per id, in order. |
| D2rViews.ParseNumerals | tests_psy/views/d2r.py:93 | Parsing the numerals of a list of ids gives the set of those ids. |
| D2rViews.Tally | tests_psy/views/d2r.py:118-128 | An examined symbol adds 1 to the three counters together when it is marked or a target, and 0 otherwise. |
| D2rViews.TallyMeaning | tests_psy/views/d2r.py:118-128 | An examined symbol adds 1 to at most one counter: a marked target is correct, a marked non-target incorrect, an unmarked target omitted. |
| D2rViews.LastSelectedMeaning | tests_psy/views/d2r.py:107-112 | The last marked position is `None` exactly when no symbol of the line is marked, else the highest position of a marked symbol. |
| D2rViews.FindLastSelected | tests_psy/views/d2r.py:107-112 | The first loop of a line computes the highest marked position. |
| D2rViews.ScanLine | tests_psy/views/d2r.py:114-128 | The second loop tallies the symbols until the first one lying past the last marked position (the `break`). |
| D2rViews.CountLine | tests_psy/views/d2r.py:102-128 | A line with no marked symbol contributes nothing; otherwise its scan up to the last marked position. |
| D2rViews.CountLines | tests_psy/views/d2r.py:100-128 | The loop over lines 2 to 13 of page 1 adds up the lines' contributions. |
| D2rViews.ScanIsCountUpTo | tests_psy/views/d2r.py:114-116 | On a line ordered by position the `break` loses nothing: the scan tallies exactly the symbols at or before the last marked position. |
| D2rViews.LineCountsMarked | tests_psy/views/d2r.py:107-128 | Every marked symbol of a line is counted once, as correct or incorrect, and a line without a marked symbol contributes nothing. |
| D2rViews.OtherLinesIgnored | tests_psy/views/d2r.py:100-105 | Symbols outside page 1, lines 2 to 13, never change the counters. |
| D2rViews.TotalCountsByPosition | tests_psy/views/d2r.py:100-128 | With every line ordered by position, the counters are the tallies of all symbols up to each line's last marked position, and the correct answers and commission errors together are the marked symbols of the lines. |
| D2rViews.SubmitByPosition | tests_psy/views/d2r.py:84-141 | End to end, for lines delivered by `order_by('position')`: what `d2r_submit` stores is those tallies, and its correct and incorrect counts together are the marked symbols of lines 2 to 13. |
| D2rViews.D2rSubmit | tests_psy/views/d2r.py:84-141 | Succeeds exactly when the ids and the time parse, and then stores the line counts, the time, `note_cct` and the concentration capacity. |
| D2rViews.TempsTotal | tests_psy/views/d2r.py:131 | An absent field gives 0; the parse fails exactly when a posted text is not an integer, and otherwise gives `int()` of the text. |
| D2rViews.TempsTotalOfNumeral | tests_psy/views/d2r.py:131 | A posted time written as an integer's decimal text reads back as that integer. |
| D2rViews.SubmissionMatchesRecord | tests_psy/views/d2r.py:134-140 | The stored `note_cct` is `cct` and the stored concentration capacity is the record's `cc`. |
| D2rViews.FindNorme | tests_psy/views/d2r.py:171-184 | A norm row found contains the age and the score in its ranges; `None` exactly when no row does. |
| D2rViews.D2rResultats | tests_psy/views/d2r.py:150-184 | The page re-derives cct, ec, eo (null as 0) and cc as the record does; the number of answers is cct + ec; each norm is the first row matching the age and its score (`FindNorme`), so it matches when found. |
| CabinetModels.Age | cabinet/models.py:51-59 | The age is the difference of the years or one less, and exactly the difference on the birthday itself. |
| CabinetModels.AgeIsCompletedYears | cabinet/models.py:51-59 | The age is the number of completed years: that birthday has been reached and the next has not; never negative for a past birth date. |
| CabinetModels.PackMindOffice.SeancesRestantes | cabinet/models.py:213-215 | Sessions left plus sessions used is the total bought. |
| CabinetModels.Consultation.Reporter | cabinet/models.py:381-392 | The first reschedule remembers the original date; the date moves, one report more is counted, the status is 'reporte' (`peut_etre_reporte` stays true), the motif is replaced only when given, and history consistency is preserved. |
| CabinetModels.Consultation.Annuler | cabinet/models.py:394-399 | Cancelling sets 'annule', so the consultation is cancelled and `peut_etre_reporte` is false; the motif is replaced only when given. |
| CabinetModels.Consultation.PeutEtreReporte | cabinet/models.py:368-370 | A consultation that can be rescheduled has one of the valid statuses, and it is not 'annule'. |
| CabinetModels.Consultation.EstAnnule | cabinet/models.py:364-366 | A cancelled consultation has a valid status, and `peut_etre_reporte` is false for it. |
| CabinetModels.Consultation.MarquerTermine | cabinet/models.py:401-404 | Finishing sets 'termine', a valid status under which `peut_etre_reporte` is false. |
| CabinetModels.Consultation.constructor | cabinet/models.py:230-346 | A new consultation is 'planifie', with no report, no original date and no motif, which is a consistent report history. |
| CabinetModels.PackMindOffice.constructor | cabinet/models.py:163-204 | A new pack is 'actif' with no session used. |
| CabinetModels.MotifAfter | cabinet/models.py:388-389 | A non-empty motif replaces the stored one, and an absent or empty one keeps it. |
| CabinetModels.HistoriqueReportsWording | cabinet/models.py:372-379 | 0 reports read "Aucun report"; any other count reads "Reportée N fois", the special case for 1 agreeing with it. |
| CabinetModels.HistoriqueReports | cabinet/models.py:372-379 | 'Aucun report' exactly when no report was made; otherwise the text starts with 'Reportée '. |
| CabinetModels.HistoriqueReportsInjective | cabinet/models.py:372-379 | The history text determines the report count. |
| CabinetModels.RFind | cabinet/models.py:510 | The index returned lies in −1 .. length − 1, and a non-negative index holds the character searched for. |
| CabinetModels.RFindIsLast | cabinet/models.py:508-510 | No occurrence of the dot lies after the position the rfind search returns. |
| CabinetModels.Extension | cabinet/models.py:508-510 | The extension holds no dot, and a name with no suffix has an empty extension. |
| CabinetModels.EstImage | cabinet/models.py:512-514 | A file is an image only when its name has a suffix and the extension is at least three letters long. |
| CabinetModels.ExtensionOfName | cabinet/models.py:508-514 | A file `dir/stem.ext` has extension `ext` lower-cased, and is an image exactly when that is one of the six image extensions. |
| CabinetModels.NoDotNoExtension | cabinet/models.py:508-514 | A name without a dot has no extension and is not an image. |
| CabinetForms.CleanDateNaissance | cabinet/forms.py:39-49 | Accepted exactly when the birth date is not in the future and its year is at most 120 years back, and then returned unchanged; a future date gets the future-date message. |
| CabinetForms.AcceptedBirthAge | cabinet/forms.py:39-49 | An accepted birth date gives an age of 0 to 120 years. |
| CabinetForms.YearTestRefusesAge120 | cabinet/forms.py:45-47 | A patient born on 31 December 1905 is 120 on 1 January 2026, and the calendar-year test refuses the date as too old. |
| CabinetForms.CleanDateNaissanceByAge | cabinet/forms.py:39-49 | The completed-years check accepts exactly the dates not in the future with an age of at most 120, and returns them unchanged. |
| CabinetForms.ByAgeAcceptsAges | cabinet/forms.py:45-47 | The completed-years check accepts exactly ages 0 to 120, and accepts every date the calendar-year test accepts. |
| CabinetForms.CleanTelephone | cabinet/forms.py:51-57 | No number stays no number. The form refuses exactly a non-empty number with fewer than 10 digits; an accepted non-empty number becomes exactly its digits in order (`FilterDigits`), which are all digits and at least 10 long. |
| CabinetForms.CleanTelephoneMeaning | cabinet/forms.py:51-57 | Cleaning returns an absent or empty number unchanged. A non-empty one is refused exactly when it has fewer than 10 digits; an accepted one becomes its digits in order, all digits and at least 10 long, and cleaning it again is a no-op. |
| Accounts.User.IsSuperadmin | accounts/models.py:53-54 | A super-administrator is never a psychologist. |
| Accounts.User.IsPsychologist | accounts/models.py:56-57 | A psychologist has a role, and it is not 'superadmin'. |
| Accounts.RolesExclusive | accounts/models.py:53-57 | A user is a super-administrator exactly for the role 'superadmin', and then not a psychologist. |
| Accounts.License.constructor | accounts/models.py:79-87 | A new licence is a 'trial', 'active', for 10 patients, with no end date. |
| Accounts.PlanLimits | accounts/models.py:101-107 | A trial gets 10 patients and a 30-day end date only when none is set; a lifetime plan gets 100 patients and no end date; any other plan keeps its fields. |
| Accounts.License.Save | accounts/models.py:99-108 | Saving applies the plan's limits to the licence in place. |
| Accounts.PlanLimitsIdempotent | accounts/models.py:99-108 | Saving again, at any time, changes nothing more: the trial end date is set once. |
| Accounts.License.IsActive | accounts/models.py:110-118 | Active only with an 'active' status; always for an active lifetime plan; otherwise only while an end date lies ahead of the clock reading. |
| Accounts.IsActiveMeaning | accounts/models.py:110-118 | Never active without an 'active' status; always for an active lifetime licence; otherwise active exactly while the end date lies ahead. |
| Accounts.License.DaysRemaining | accounts/models.py:120-126 | Unlimited exactly for the lifetime plan. Before an end date still ahead, the count is the whole days of the time left (`timedelta.days`: d·day ≤ left < (d+1)·day); with no end date or one already past it is 0. |
| Accounts.DaysRemainingMeaning | accounts/models.py:120-126 | Unlimited exactly for the lifetime plan; the count is never negative; before an end date still ahead it is the whole days of the time left, with no end date or one past it is 0; a positive count with an active status means the licence is active. |
| Accounts.ExpiryMonotone | accounts/models.py:110-126 | A licence active later was active earlier, and the days left never grow with time. |
| Accounts.FreshTrial | accounts/models.py:101-104 | A trial saved without an end date is active for thirty whole days from saving and expires at their end. |
| Accounts.License.HasPatientLimit | accounts/models.py:128-130 | Every plan limits the number of patients. |
| CabinetViews.ConsultationCreate | cabinet/views.py:411-418 | A consultation on a pack uses exactly one more session of it (one fewer left); the total and status are unchanged, and no pack changes without one. |
| CabinetViews.CancelWith | cabinet/views.py:529-541 | On every call the pack gets one session back whatever the previous status, the status is the one written and the motif is the posted one (empty when none is posted). |
| CabinetViews.ConsultationAnnuler | cabinet/views.py:529-541 | The view stores 'annulee', which is not a consultation status, so the consultation does not count as cancelled. The motif is the posted one, and the pack gets one session back with its total and status unchanged. |
| CabinetViews.ConsultationAnnulerCorrected | cabinet/views.py:529-541 | Cancelling with 'annule' leaves a consultation that is cancelled and for which `peut_etre_reporte` is false, with the posted motif; the pack gets one session back with its total and status unchanged. |
| CabinetViews.RescheduleWith | cabinet/views.py:489-511 | An unparsable date saves nothing. Otherwise the original date is kept when known and set otherwise; the date moves, the status is written, one report more is counted and the motif is the posted one, even empty. History consistency is preserved. |
| CabinetViews.ConsultationReporter | cabinet/views.py:489-511 | An unparsable date changes nothing. Otherwise the original date is remembered when none is, the date moves, one report is counted, the motif is the posted one, and the status is 'reportee': not a consultation status, so `peut_etre_reporte` becomes false. The view itself never tests that property, so a later reschedule through the view is not refused. |
| CabinetViews.ConsultationReporterCorrected | cabinet/views.py:489-511 | An unparsable date changes nothing. Otherwise, with 'reporte', the original date is remembered when none is, the date moves, one report is counted, the motif is the posted one, the history stays consistent and `peut_etre_reporte` stays true. |
| CabinetViews.PacksActifs | cabinet/views.py:83-86 | The count of active packs never exceeds the number of packs. |
| CabinetViews.PacksActifsCounts | cabinet/views.py:83-86 | The count is 0 exactly when no pack is 'actif' with sessions left. |
| CabinetViews.SeancesAtLeastPacks | cabinet/views.py:83-95 | The dashboard shows at least as many sessions left as active packs, and none exactly when no pack is active. |
| CabinetViews.SeancesRestantesActives | cabinet/views.py:89-95 | The sessions left over the active packs are never negative, and 0 when no pack is active. |
| CabinetViews.DashboardConcat | cabinet/views.py:83-95 | Both dashboard counts add up over any split of the pack list. |
| CabinetViews.DashboardSingle | cabinet/views.py:83-95 | A single pack counts once exactly when it is active, and contributes its own sessions left; with the split rule this fixes both counts as the number of active packs and the sum of their sessions left. |
| CabinetViews.EventEnd | cabinet/views.py:750 | The event ends `duree_minutes` minutes after it starts. |
| CabinetViews.EventEndShift | cabinet/views.py:750 | A positive length ends after the start, and moving the start moves the end by the same amount. |
| CustomFilters.Get | tests_psy/templatetags/custom_filters.py:89 | `dict.get` returns a stored item's value, and `None` exactly when no item has the key. |
| CustomFilters.GetFindsItem | tests_psy/templatetags/custom_filters.py:89 | With distinct keys, the lookup returns v exactly when (key, v) is an item. |
| CustomFilters.Values | tests_psy/templatetags/custom_filters.py:9 | `values()` lists the items' values, one per item, in order. |
| CustomFilters.SumScores | tests_psy/templatetags/custom_filters.py:6-12 | The loop adds `note_brute` over the dict values that hold it, a bool as 1 or 0, failing with `TypeError` when a field is neither an int nor a bool (`None` included). |
| CustomFilters.SumEchelleV | tests_psy/templatetags/custom_filters.py:15-30 | Dict values and dicts are summed over the non-`None` `note_echelle_v` fields, a bool as 1 or 0, failing with `TypeError` on any other field; any other argument gives 0. |
| CustomFilters.SumFieldLoop | tests_psy/templatetags/custom_filters.py:9-11 | The accumulation loop, stopping at the first `TypeError`, computes the specification sum. |
| CustomFilters.SumFieldSkips | tests_psy/templatetags/custom_filters.py:10 | An entry that is not a dict, or has no such field, is skipped wherever it sits. |
| CustomFilters.SumFieldFails | tests_psy/templatetags/custom_filters.py:9-11 | The sum fails exactly when some entry's field cannot be added to an int: a dict entry whose field is neither an int nor a bool, nor a `None` that `sum_echelle_v` skips. |
| CustomFilters.BoolFieldAdds | tests_psy/templatetags/custom_filters.py:9-11 | A bool field adds 1 for `True` and 0 for `False` wherever it sits, in both sums; an entry's contribution fails exactly when its field is neither an int, a bool nor a skipped `None`. |
| CustomFilters.SumFieldConcat | tests_psy/templatetags/custom_filters.py:9-11 | The sum over a concatenation adds the sums of the parts, and fails when one of them does. |
| CustomFilters.SumFieldTypeError | tests_psy/templatetags/custom_filters.py:11 | Every failure of the sum is a `TypeError`. |
| CustomFilters.NoneFieldHandling | tests_psy/templatetags/custom_filters.py:22-23 | A `None` field is skipped by `sum_echelle_v`, but makes `sum_scores` raise. |
| CustomFilters.PyInt | tests_psy/templatetags/custom_filters.py:36 | `int()` of an int is that int and of a bool 1 or 0; of `None`, a dict or an object with no integer conversion it raises. |
| CustomFilters.Subtract | tests_psy/templatetags/custom_filters.py:33-38 | When both operands convert with `int()`, the difference of their values; when either conversion raises, 0. |
| CustomFilters.Multiply | tests_psy/templatetags/custom_filters.py:41-46 | When both operands convert with `int()`, the product of their values; when either conversion raises, 0. |
| CustomFilters.ArithmeticFilters | tests_psy/templatetags/custom_filters.py:33-46 | Integers and their decimal texts give the difference and the product. Swapping the operands negates `subtract` and keeps `multiply`, and a non-number operand gives 0. |
| CustomFilters.SplitNotes | tests_psy/templatetags/custom_filters.py:54-78 | The cleaning loop computes the filter: mark the separators, split at '\|', keep the non-empty cleaned pieces in order. |
| CustomFilters.SplitNotesClean | tests_psy/templatetags/custom_filters.py:54-78 | Empty or absent input gives no notes, and every note is non-empty with no surrounding whitespace. |
| CustomFilters.KeepNotesClean | tests_psy/templatetags/custom_filters.py:70-76 | The cleaning loop keeps at most one note per piece, each non-empty and without surrounding whitespace. |
| CustomFilters.SplitNotesKeepsSeparator | tests_psy/templatetags/custom_filters.py:72-76 | On ".\t.x" the filter gives [".x"], a note that still starts with a separator. |
| CustomFilters.SplitNotesCorrectedClean | tests_psy/templatetags/custom_filters.py:72-76 | The corrected cleaning keeps every note non-empty and stripped, with no leading separator. |
| CustomFilters.LStripNoise | tests_psy/templatetags/custom_filters.py:74 | Removing whitespace and separators in one pass leaves a text that starts with neither. |
| CustomFilters.KeepNotesCorrectedClean | tests_psy/templatetags/custom_filters.py:72-76 | With the corrected cleaning every note kept is non-empty and stripped, with no leading separator, at most one per piece. |
| CustomFilters.SplitNotesCorrectedExample | tests_psy/templatetags/custom_filters.py:72-76 | On ".\t.x" the corrected filter gives ["x"]. |
| CustomFilters.GetItem | tests_psy/templatetags/custom_filters.py:81-90 | A non-dict gives `None`, and a value found is stored in the dict under `str(key)`. |
| CustomFilters.GetItemMeaning | tests_psy/templatetags/custom_filters.py:81-90 | A non-dict gives `None`. In a dict with distinct keys the result is the value stored under `str(key)`, and `None` exactly when no such key exists. |
| CustomFilters.GetItemIntKey | tests_psy/templatetags/custom_filters.py:88-89 | An integer key finds the entry stored under its decimal text. |
| CustomFilters.IsChecked | tests_psy/templatetags/custom_filters.py:94-115 | A box is checked only for non-empty dict data and a text spec that splits at ':' into exactly two parts. |
| CustomFilters.IsCheckedMeaning | tests_psy/templatetags/custom_filters.py:94-115 | For a spec `key:expected` and non-empty data, the box is checked exactly when `str` of the stored answer ('' when missing) equals `expected`. A spec with two ':' or empty data is never checked. |
| CustomFilters.IsCheckedIntAnswer | tests_psy/templatetags/custom_filters.py:103-107 | An integer answer checks the box whose expected value is its decimal text. |

## Left out

- Rendering is not modelled, being presentation only: PDF and HTML output, the messages, redirects and pagination.
- The ORM is replaced by input sequences: querysets, `select_related`, `update_or_create`, transactions and `save()` calls. The response ordering of tests_psy/views/vineland.py:126-130 becomes the item order of the input list.
- The first definitions of the three comparison generators (tests_psy/views/vineland.py:1151-1426) are not modelled: the later definitions shadow them. The statements at tests_psy/views/vineland.py:1697-1824 are dead code and are not modelled either.
- `get_patient_age` is not modelled because it depends on `dateutil.relativedelta`. The chronological age (years, months, days) is an input.
- The date parser `parse_datetime` of the reschedule view is a parameter: its result, `None` when the text is not a date. On a well-formed but invalid date the parser raises `ValueError`, and when `nouvelle_date` is absent it raises `TypeError` (cabinet/views.py:495-496, with no handler). Both paths end as the `None` path does in the model: nothing is saved.
- The clock is a parameter `now`, and today's date a parameter `today`. `days_remaining` reads the clock twice and `clean_date_naissance` reads `date.today()` twice (cabinet/forms.py:42 and 45); the model reads each once, so a run across midnight is not modelled.
- The multi-tenant middleware, the organization filters of the views and the access decorators are ambient request state and are not modelled.
- Floating-point and Decimal values are not modelled:
  - the d2-R `note_exactitude`, `precision` and `temps_moyen_ligne`, and the accuracy norm looked up from the truncated error percentage;
  - `score_pourcentage`, `prix_par_seance`, `pourcentage_utilise` and `taille_lisible`;
  - the dashboard percentages and the `divide` filter.
- D2rModels.EPercentage: states only the zero case and the sign, not the floating-point quotient.
- The `split` template filter is not modelled: it is a bare `str.split` with an arbitrary delimiter.
- The debug `print` inside `is_checked` is not modelled; it is output only.
- CustomFilters.IsCheckedMeaning: a stored non-empty dict has no text, because its `str()` holds a ':' that an expected value cannot hold. Floats and other objects are one opaque `OtherV` case with their text given.
- CustomFilters.GetItemMeaning: keys are limited to int, str and None, and dictionary keys are strings.
- CustomFilters.PyInt: floats, which `int()` truncates toward zero, are not among the modelled values; `OtherV` stands only for objects `int()` refuses.
- CustomFilters.SumScores: `sum_scores` on an argument that is not a dict raises `AttributeError` in the source. The model takes the dict's items.
- CustomFilters.SumFieldFails: a float or Decimal field, which Python adds, is not among the modelled values (floating point is left out); every other non-int, non-bool field raises `TypeError` as in the source.
- Text.ParseInt: only ASCII decimal digits are read; the other Unicode decimal digits that Python's `int()` also accepts are not modelled.
- CabinetModels.ExtensionOfName: `lower()` is modelled on ASCII letters only.
- CabinetForms.CleanTelephoneMeaning: `str.isdigit` is modelled on ASCII digits. The other Unicode digits Python accepts are not modelled.
- VinelandRecords.AgeEquivalentReadsBack: the special age is an arbitrary text. The model states which of the two special labels is shown, not the field's choice list.
- Rows are not modelled beyond the fields the model reads: names, foreign keys as integer ids, and the per-subdomain and per-domain tables of the Vineland norms.
- The offline import and export scripts, the admin classes, the URL configuration and the settings are not modelled: they are file I/O, bulk loading and configuration.

## Findings

| source | as written | input that shows it | evidently intended | confidence | as-written member | corrected member |
|---|---|---|---|---|---|---|
| cabinet/views.py:504-508 | the reschedule view stores the status 'reportee' | any valid reschedule of a planned consultation | the status 'reporte' of the consultation's choices (cabinet/models.py:250-256), under which `peut_etre_reporte` stays true | high, not executed | CabinetViews.ConsultationReporter | CabinetViews.ConsultationReporterCorrected |
| cabinet/views.py:539 | the cancel view stores the status 'annulee' | any cancellation | the status 'annule', which `est_annule` tests (cabinet/models.py:365-366) | high, not executed | CabinetViews.ConsultationAnnuler | CabinetViews.ConsultationAnnulerCorrected |
| tests_psy/templatetags/custom_filters.py:72-76 | `strip`, then `lstrip('.-•')`, then `strip` leaves a separator that follows non-space whitespace | `split_notes(".\t.x")` gives `[".x"]` | no note starts with a separator | medium, not executed | CustomFilters.SplitNotesKeepsSeparator | CustomFilters.SplitNotesCorrectedClean |
| cabinet/forms.py:45-47 | the age limit compares calendar years | born 1905-12-31, on 2026-01-01 (age 120) the date is refused | refuse ages above 120 completed years, as the message says | low, not executed | CabinetForms.YearTestRefusesAge120 | CabinetForms.ByAgeAcceptsAges |
