# upei_migration: the MODS record transformer and the worksheet mappers, in Dafny

This project models the core of a migration tool that moves an Islandora 7 (Fedora 3)
repository to Drupal. The tool has three parts:

- **`ModsTransformer`** turns one MODS bibliographic record into a flat summary: a map from
  Drupal field name to value. The steps are:
  - copy the plain-text children of the record through a field table;
  - harvest `originInfo`, `subject`, `relatedItem`, `titleInfo`, `location`,
    `physicalDescription`, `typeOfResource` and `name`, one after another;
  - repair every EDTF date field with a cascade of date rules.

  Contributor names become `relatorCode:vocabulary:name` strings. The relator code comes from a
  table of 270 entries: MARC relator labels, and the empty label.
- **`map_worksheet_values`**, in two variants, renames and filters the columns of one worksheet
  row and translates the Islandora content model into a Drupal model name:
  - the lenient variant (`ImportUtilities`) maps an unknown model to `None`;
  - the strict variant (`MigrationPrep`) raises `KeyError` for an unknown model and also keeps
    `title`.
- **`dereference`** derives where Fedora keeps an object: a `##` template filled from the MD5
  digest of the object's URI, `/`, then the URL-quoted URI with `_` written `%5F`.

## Structure

- `pystr.dfy`, module `PyStr`: the Python string operations the core uses, such as `strip`,
  `capitalize`, `replace`, `split`, `splitlines`, `join` and `in`.
- `pytree.dfy`, module `PyTree`: the parsed record.
  - A `Node` is `None`, a string, a list or a dict. A dict is a sequence of entries, the way
    `xmltodict` delivers MODS, with `@attr` and `#text` keys.
  - Python's exceptions become `Result` values with `KeyError`, `AttributeError`, `TypeError`
    and `IndexError`.
  - It also defines `get`, iteration, `str`, `'sep'.join` and coercing a single dict to a list.
- `relators.dfy`, module `Relators`: the relator table and the `Editor` fallback.
- `names.dfy`, module `NameParsing`: `parse_name` as a fold over the entries of a name. The
  module also gives an independent reading of it: the last `@type`, `namePart` and
  structured `role` decide.
- `date_repair.dfy`, module `DateRepair`: the `fix_dates` cascade as functions on strings.
  - Each regular expression is an explicit recognizer.
  - `strptime` is a calendar check.
  - The EDTF validator is a parameter `isEdtf`.
- `mods_steps.dfy`, module `ModsSteps`: each extraction step as a function from summary to
  summary, the date pass, and the whole extraction `Extract`.
- `mods_transformer.dfy`, module `Transformer`: the class `ModsTransformer`.
  - Its field `summary` is updated in place by methods that follow the source's loops.
  - Each method is proved to reach exactly the state the step function of `ModsSteps`
    describes.
- `mods_properties.dfy`, module `ModsProperties`: what the extraction guarantees.
- `mods_last_write.dfy`, module `ModsLastWrite`: which child of the record decides each field
  that the plain-text, `originInfo` and `subject` loops overwrite.
- `worksheet.dfy`, module `Worksheet`: the column loop both worksheet mappers share, and the
  content-model table.
- `import_utilities.dfy` and `migration_prep.dfy`: the two mappers and `dereference`.

## Model

| member | source | states |
|---|---|---|
| Relators.RelatorLookup | ModsTransformer.py:12-282 | the relator table: 270 entries from a role label, the empty label among them, to its `relators:` code |
| Relators.RelatorCode | ModsTransformer.py:421-423 | the code of a role found in the relator table is its entry; any other role gets the entry of `Editor`, `relators:edt` |
| Relators.DefaultRoleCode | ModsTransformer.py:421-423 | the fallback role `Editor` is in the table, so the lookup after the fallback cannot fail |
| Relators.EmptyRoleIsAttributed | ModsTransformer.py:12 | the empty role, used when a name has no structured role, has its own entry `relators:att` |
| Relators.DeprecatedLabelsUnreachable | ModsTransformer.py:11-282 | three labels keep a capital letter after their first character, so no capitalized role term can equal them and such a role falls back to `Editor` |
| Relators.UpperAfterFirst | ModsTransformer.py:418-423 | a label with an upper-case letter after its first character is never the capitalization of any role term |
| ModsSteps.Field | ModsTransformer.py:288-306 | the field table sends each MODS element to a known target field; `note` and `abstract` both go to `field_abstract` |
| PyStr.Capitalize | ModsTransformer.py:418-420 | `capitalize` keeps the length and each letter up to case; the first character is not lower-case and no later one is upper-case |
| PyStr.CapitalizeIdempotent | ModsTransformer.py:418-420 | capitalizing twice is capitalizing once |
| PyStr.Strip | ModsTransformer.py:324 | `strip` returns the slice of the input between the leading and the trailing whitespace runs: it starts and ends with a visible character, and a string already without such whitespace is returned unchanged |
| PyStr.ReplaceChar | ModsTransformer.py:329 | `replace` of one character: a one-character string becomes the replacement exactly when it is the character; with a one-character replacement every position is mapped on its own; the character is gone when the replacement lacks it, and no other character appears |
| PyStr.ReplaceCharAppend | ModsTransformer.py:329 | replacing in a concatenation replaces in each part; with the one-character case this fixes `replace` on every string |
| PyStr.SplitLines | ModsTransformer.py:435 | `splitlines` gives no line exactly for the empty string; the first line is the text up to the first line boundary, and text without a boundary is one line |
| PyStr.SplitLinesSingle | ModsTransformer.py:435 | no line `splitlines` returns holds a line boundary |
| PyStr.SplitLinesJoin | ModsTransformer.py:435 | for text whose only boundaries are `\n` and which does not end in one, joining the lines with `\n` gives the text back |
| PyStr.JoinLines | ModsTransformer.py:435 | `' '.join(s.splitlines())` holds no line boundary |
| PyStr.JoinLinesSpaces | ModsTransformer.py:435 | for text whose only boundaries are `\n` and which does not end in one, `' '.join(s.splitlines())` is the text with each `\n` replaced by a space |
| PyStr.SplitOn | ModsTransformer.py:364 | `split('-')` gives at least one piece, and no piece holds the separator |
| PyStr.SplitOnJoin | ModsTransformer.py:364 | `split('-')` followed by a join with `-` gives the string back |
| PyStr.Words | ModsTransformer.py:388 | `split()` gives non-empty pieces without whitespace, at least one when the string is not all whitespace, and the string itself when it is one such piece |
| PyStr.WordsJoin | ModsTransformer.py:388 | `split()` of non-empty whitespace-free pieces joined by single spaces gives the pieces back |
| PyStr.WordsCons | ModsTransformer.py:388 | `split()` of a word, a space and more text is that word followed by `split()` of the rest |
| PyTree.Lookup | ModsTransformer.py:428 | `d[k]` exists exactly when some entry has key `k`, and it is the value of such an entry |
| PyTree.LookupAt | ModsTransformer.py:428 | in a dict with distinct keys, `d[k]` for the key at position `i` is the value at position `i` |
| PyTree.GetOr | ModsTransformer.py:446 | `get(k, default)` on a dict gives the value of an entry with key `k`, and the default when there is none |
| PyTree.Get | ModsTransformer.py:446 | `get` succeeds exactly on a dict, where it gives the value under the key or the default, and raises `AttributeError` on anything else |
| PyTree.Members | ModsTransformer.py:441-442 | iterating raises `TypeError` exactly on `None`; a list gives its items, a string one string per character in order, a dict its keys in order |
| PyTree.Coerced | ModsTransformer.py:439-441 | a lone dict under `k` is iterated as a list of one; any other value under `k` is iterated as it is; a missing key iterates the default |
| PyTree.Str | ModsTransformer.py:422-423 | formatting a string in an f-string gives the string itself |
| PyTree.JoinTexts | ModsTransformer.py:461 | `sep.join(xs)` succeeds exactly when every item is a string, and then joins their texts; otherwise it raises `TypeError` |
| ModsSteps.StringFields | ModsTransformer.py:429-436 | the loop over the plain-text children, each stored under its field with its lines joined; properties in `ModsProperties.StringFieldsWrites` and `ModsLastWrite.StringFieldsLast` |
| ModsSteps.NonString | ModsTransformer.py:429-436 | after the plain-text children are deleted, no plain-text child is left, every other child is kept, and nothing new appears |
| ModsSteps.NonStringAppend | ModsTransformer.py:429-436 | deleting the plain-text children of a concatenation deletes them from each part, so the remaining children keep their order |
| ModsSteps.OriginEntries | ModsTransformer.py:442-443 | the children of one `originInfo`, each stored under its field; properties in `ModsProperties.OriginEntriesWrites` and `ModsLastWrite.OriginEntriesLast` |
| ModsSteps.OriginItems | ModsTransformer.py:440-443 | the loop over the `originInfo` elements; a non-dict element raises `AttributeError`; properties in `ModsLastWrite.OriginItemsLast` |
| ModsSteps.OriginInfo | ModsTransformer.py:439-443 | the `originInfo` step, a lone dict counting as a list of one; properties in `ModsProperties.OriginInfoWrites` |
| ModsSteps.NonNullValues | ModsTransformer.py:452-453 | the values kept from `hierarchicalGeographic` are never `None`, each comes from an entry, and every non-`None` value is kept |
| ModsSteps.NonNullValuesAppend | ModsTransformer.py:452-453 | the kept values of a concatenation are those of each part, so they keep their order |
| ModsSteps.SubjectEntries | ModsTransformer.py:447-453 | the loop over the children of `subject`; properties in `ModsProperties.SubjectEntriesWrites` and `ModsLastWrite.SubjectEntriesLast` |
| ModsSteps.Subjects | ModsTransformer.py:446-453 | the `subject` step: a `subject` that is not a dict raises `AttributeError`; properties in `ModsLastWrite.SubjectsLast` |
| ModsSteps.RelatedTitle | ModsTransformer.py:460 | `item.get('titleInfo', {}).get('title', '')`; properties in `ModsProperties.RelatedTitlesInOrder` |
| ModsSteps.RelatedFold | ModsTransformer.py:458-460 | the related-title loop; properties in `ModsProperties.RelatedFoldAppends` |
| ModsSteps.RelatedJoin | ModsTransformer.py:455-461 | the joined related titles; properties in `ModsProperties.ExtractRelatedItem` |
| ModsSteps.Related | ModsTransformer.py:455-461 | the related-item step; properties in `ModsProperties.EarlyRelated` |
| ModsSteps.TitleStep | ModsTransformer.py:466-473 | one `titleInfo`; properties in `ModsProperties.FirstTitleWins` |
| ModsSteps.TitleFold | ModsTransformer.py:465-473 | the title loop; properties in `ModsProperties.TitleFoldKeeps` and `ModsProperties.TitleFoldWrites` |
| ModsSteps.TitleItems | ModsTransformer.py:464-465 | `mods['titleInfo']`, a lone dict counting as a list of one; properties in `ModsProperties.MissingTitleFails` |
| ModsSteps.Titles | ModsTransformer.py:464-473 | the title step; properties in `ModsProperties.TitlesWrites` |
| ModsSteps.LocationOf | ModsTransformer.py:479 | `(location or {}).get('location', {}).get('physicalLocation', '')`; properties in `ModsProperties.LocationFoldJoins` |
| ModsSteps.LocationFold | ModsTransformer.py:478-480 | the location loop; properties in `ModsProperties.LocationFoldJoins` and `ModsProperties.LocationFoldKeeps` |
| ModsSteps.Locations | ModsTransformer.py:475-480 | the location step; properties in `ModsProperties.LocationsWrites` |
| ModsSteps.Physical | ModsTransformer.py:481-486 | the `physicalDescription` step; properties in `ModsProperties.LateStepsWrite` |
| ModsSteps.ResourceKind | ModsTransformer.py:487 | `(mods.get('typeOfResource') or {}).get('#text', '')`; properties in `ModsProperties.StringResourceTypeLost` |
| ModsSteps.ResourceType | ModsTransformer.py:487 | the resource-type step; properties in `ModsProperties.LateStepsWrite` |
| ModsSteps.NamesFold | ModsTransformer.py:490-492 | the name loop; properties in `ModsProperties.NamesFoldSucceeds` and `ModsProperties.NamesFoldAppends` |
| ModsSteps.LinkedAgents | ModsTransformer.py:488-493 | the joined name encodings; properties in `ModsProperties.LinkedAgentsJoin` |
| ModsSteps.Names | ModsTransformer.py:488-493 | the name step; properties in `ModsProperties.LinkedAgentsJoin` |
| ModsSteps.Repaired | ModsTransformer.py:495-497 | one EDTF field after `fix_dates`: a stored value replaces it, a returned or reported one leaves it |
| ModsSteps.DatePass | ModsTransformer.py:495-497 | the date pass; properties in `ModsSteps.DatePassDone`, `ModsSteps.DatePassFails` and `Transformer.ModsTransformer.FixEdtfDates` |
| ModsSteps.DatePassDone | ModsTransformer.py:495-497 | the date pass succeeds with the repaired EDTF fields and every other field as it was |
| ModsSteps.DatePassFails | ModsTransformer.py:495-497 | one EDTF field that is not a string makes the pass raise `AttributeError` |
| ModsSteps.DateProgressStep | ModsTransformer.py:495-497 | visiting one more key keeps the invariant of the date loop: visited EDTF fields are repaired, all others hold their old values |
| ModsSteps.EarlySteps | ModsTransformer.py:438-473 | the `originInfo`, `subject`, `relatedItem` and `titleInfo` steps in order; properties in `ModsProperties.EarlyStepsWrite` |
| ModsSteps.LateSteps | ModsTransformer.py:474-487 | the `location`, `physicalDescription` and `typeOfResource` steps in order; properties in `ModsProperties.LateStepsWrite` |
| ModsSteps.Harvest | ModsTransformer.py:438-497 | every step after the plain-text children, then the date pass; properties in `ModsProperties.HarvestKeys` |
| ModsSteps.Extract | ModsTransformer.py:425-499 | `extract_from_mods` on the parsed document; a document without `mods` raises `KeyError`; properties in `ModsProperties.ExtractKeys` and `ModsProperties.ExtractRelatedItem` |
| NameParsing.VocabFor | ModsTransformer.py:400-406 | `type_map[value]` succeeds exactly for `corporate` and `personal`; another string raises `KeyError` on it and a list or dict raises `TypeError` |
| NameParsing.RoleFrom | ModsTransformer.py:410-420 | an empty list raises `IndexError`; a role that is not a list, or a list whose first item is not a dict, reads the empty dict and gives the empty role; otherwise a string `roleTerm` gives its capitalization, a dict `roleTerm` the capitalization of its `#text`, and a `#text` or `roleTerm` of another kind raises `AttributeError` |
| NameParsing.NameStep | ModsTransformer.py:404-420 | one entry of the loop of `parse_name`; properties in `NameParsing.NameFoldSettles` |
| NameParsing.NameFold | ModsTransformer.py:404-420 | the loop of `parse_name`; properties in `NameParsing.NameFoldSettles` |
| NameParsing.ParsedName | ModsTransformer.py:396-423 | `parse_name`; properties in `NameParsing.ParsedNameParts` |
| NameParsing.Last | ModsTransformer.py:404-420 | the value of the last entry of a kind is that of an entry of that kind with no such entry after it; with none, no entry is of that kind |
| NameParsing.NameFoldSettles | ModsTransformer.py:404-420 | the entry loop succeeds exactly when every entry is accepted, and then its state is that of the last `@type`, `namePart` and structured `role` entries |
| NameParsing.ParsedNameParts | ModsTransformer.py:396-423 | `parse_name` of a dict succeeds exactly when all its entries are accepted, and returns the code, vocabulary and name settled by the last entries of each kind |
| NameParsing.VocabularyOfName | ModsTransformer.py:399-407 | without `@type` the vocabulary is `corporate_body`; with a last `@type` of `personal` it is `person`, and of `corporate` it is `corporate_body` |
| NameParsing.UnknownRoleIsEditor | ModsTransformer.py:421-423 | a role missing from the table is encoded `relators:edt:vocab:name` |
| NameParsing.KnownRoleIsCoded | ModsTransformer.py:421-423 | a role in the table is encoded by its own code, then vocabulary and name |
| NameParsing.NoRoleIsAttributed | ModsTransformer.py:397-423 | without a structured role the role is empty and encoded `relators:att` |
| NameParsing.StringRoleIgnored | ModsTransformer.py:410 | a `role` given as a string does not change the result |
| NameParsing.DictRoleIsEmpty | ModsTransformer.py:411-414 | a `role` given as one dict is replaced by the empty dict, so its term is lost |
| NameParsing.LastRoleIs | ModsTransformer.py:410 | a structured `role` entry at the end is the last role entry |
| NameParsing.ListRoleTerm | ModsTransformer.py:411-418 | a final list role whose first item is a dict with a string `roleTerm` gives the capitalized term |
| NameParsing.ListRoleText | ModsTransformer.py:411-420 | a final list role whose first item is a dict whose `roleTerm` is a dict with a string `#text` gives the capitalized text |
| NameParsing.ListRoleNotDict | ModsTransformer.py:411-414 | a final list role whose first item is not a dict gives the empty role |
| Transformer.ModsTransformer.ParseName | ModsTransformer.py:396-423 | the entry loop with `role`, `name` and `vocab` as locals returns exactly `ParsedName` of the input |
| DateRepair.MonthNumber | ModsTransformer.py:309-313 | the twelve full English month names and their two-digit numbers; properties in `DateRepair.MonthNamesAreLetters` |
| DateRepair.MonthNamesAreLetters | ModsTransformer.py:309-313 | every full month name is a non-empty run of ASCII letters |
| DateRepair.Correction | ModsTransformer.py:314-323 | the table of known mistakes; properties in `DateRepair.CorrectionsHaveSpace` and `DateRepair.CorrectionsHaveNoComma` |
| DateRepair.Cleaned | ModsTransformer.py:324-329 | the value the rules see holds no `;` and no `,` |
| DateRepair.RepairDate | ModsTransformer.py:308-394 | `fix_dates` on the stored string: the rules run on the cleaned value; properties in the `DateRepair` lemmas below and in `Transformer.ModsTransformer.FixDates` |
| DateRepair.WordRules | ModsTransformer.py:331-343 | the `January 1973` rule, then the month rules; properties in `DateRepair.WordYearRule` |
| DateRepair.MonthRules | ModsTransformer.py:345-359 | the `Jan 1999` and `November-December, 2010` rules, which return their value; properties in `DateRepair.MonthGluedDiscarded` and `DateRepair.MonthRangeGluedDiscarded` |
| DateRepair.NumericRules | ModsTransformer.py:361-382 | the `1982-83` and `February 27, 2010` rules; properties in `DateRepair.ShortRangeRule` and `DateRepair.CalendarRuleUnreachable` |
| DateRepair.FullDateRule | ModsTransformer.py:372-382 | the calendar rule with its February 29 1990 correction; it is unreachable, see `DateRepair.CalendarRuleUnreachable` |
| DateRepair.FinalRules | ModsTransformer.py:383-394 | the `YYYY-YYYY`, `ca.` and EDTF rules; properties in `DateRepair.ReportedOnlyWhenInvalid` |
| DateRepair.WordYearValueAt | ModsTransformer.py:334-342 | at a word-year match the stored value is the four digits after the whitespace, `-`, and the month number of the word, or `??` |
| DateRepair.WordYearValueOf | ModsTransformer.py:334-342 | the same, for a known word and year |
| DateRepair.ContainsVisible | ModsTransformer.py:314-323 | a string containing a non-empty piece that starts with a visible character has a visible character |
| DateRepair.ShortRangePlain | ModsTransformer.py:324-329 | a seven-character value matching the `1982-83` rule has no whitespace, `;` or `,`, so cleaning keeps it |
| DateRepair.MonthOrUnknown | ModsTransformer.py:335-341 | `??` exactly when the word is not a full month name, and otherwise the month number |
| DateRepair.SearchWordYear | ModsTransformer.py:332 | the `(\w+)\s+(\d{4})` search finds the leftmost position where a word, whitespace and four digits start, or finds none |
| DateRepair.WordYearValue | ModsTransformer.py:334-342 | the stored value has seven characters: four digits, `-`, then two characters |
| DateRepair.WordYearValueParts | ModsTransformer.py:334-342 | the stored value is the four matched digits, `-`, and the month number of the matched word, or `??` |
| DateRepair.MonthYearMatch | ModsTransformer.py:346 | `re.match(r"([A-Za-z]+),?\s*(\d{4})")`; properties in `DateRepair.MonthGluedMatch` |
| DateRepair.MonthRangeMatch | ModsTransformer.py:353 | `re.match(r"([A-Za-z]+)-([A-Za-z]+),?\s*(\d{4})")`; properties in `DateRepair.MonthRangeGluedMatch` |
| DateRepair.ShortRange | ModsTransformer.py:361-363 | the match of a year from 18, 19 or 20 followed by `-` and two digits, between word boundaries; properties in `DateRepair.ShortRangeRule` |
| DateRepair.ShortRangeValue | ModsTransformer.py:364-368 | the value the `1982-83` rule stores; properties in `DateRepair.ShortRangePieces` and `DateRepair.ShortRangeSplit` |
| DateRepair.ShortRangePieces | ModsTransformer.py:364 | the two pieces the `1982-83` rule uses are the first two pieces of `split('-')` |
| DateRepair.FullDateMatch | ModsTransformer.py:371 | the `Month D, YYYY` pattern; properties in `DateRepair.FullDateNeedsComma` |
| DateRepair.FullDateNeedsComma | ModsTransformer.py:371 | the `Month D, YYYY` pattern needs a comma |
| DateRepair.CalendarDate | ModsTransformer.py:376-377 | `strptime` then `strftime`: a month name, a day in that month of that year and a four-digit year give `YYYY-MM-DD` |
| DateRepair.YearRange | ModsTransformer.py:383-386 | `re.match(r"\d{4}-\d{4}")`; properties in `DateRepair.ReportedOnlyWhenInvalid` |
| DateRepair.CalendarRuleUnreachable | ModsTransformer.py:329-382 | no cleaned value matches the `Month D, YYYY` pattern, because every comma is removed first |
| DateRepair.CorrectionsHaveSpace | ModsTransformer.py:314-323 | every mistake the table corrects contains a space |
| DateRepair.CorrectionsHaveNoComma | ModsTransformer.py:314-323 | no mistake the table corrects contains a comma |
| DateRepair.ReportedOnlyWhenInvalid | ModsTransformer.py:390-394 | a date is reported only when the cleaned value fails the EDTF check and neither the `January 1973` nor the `1982-83` rule matched |
| DateRepair.NoSpaceNoWordYear | ModsTransformer.py:332 | a value without whitespace never matches the `January 1973` rule |
| DateRepair.WordYearStored | ModsTransformer.py:332-343 | a word, a space and four digits, such as `Jan 1999` or `March 1999`, are stored as the year, `-` and the month number, or `??` when the word is not a full month name |
| DateRepair.WordYearRule | ModsTransformer.py:332-343 | whenever the cleaned value has a word followed by a year, the leftmost such match decides the stored value |
| DateRepair.WordYearFound | ModsTransformer.py:332-343 | the same rule, at a match position already known |
| DateRepair.WordYearCleaned | ModsTransformer.py:324-329 | cleaning leaves a word, a space and a year as they are |
| DateRepair.WordYearMatch | ModsTransformer.py:332-341 | in a word, a space and a year the leftmost match is at the start and gives the year and the month number |
| DateRepair.NotACorrection | ModsTransformer.py:314-323 | apart from `Sept 1993` and `Winter 2005`, no corrected mistake has the shape word, space, four digits |
| DateRepair.CleanedNoSpace | ModsTransformer.py:324-329 | a value without whitespace, `;` or `,` is its own cleaned value |
| DateRepair.MonthGluedDiscarded | ModsTransformer.py:345-351 | a month name glued to its year (`May2005`) matches only the `Jan 1999` rule, whose value is returned and never stored |
| DateRepair.MonthGluedCleaned | ModsTransformer.py:324-332 | cleaning leaves a month glued to a year as it is, and the `January 1973` search finds nothing in it |
| DateRepair.MonthGluedMatch | ModsTransformer.py:346-348 | the `Jan 1999` pattern reads a month glued to a year as that month and year |
| DateRepair.MonthRangeGluedDiscarded | ModsTransformer.py:345-359 | two month names glued to their year (`November-December2010`) match only the `November-December, 2010` rule, whose value is returned and never stored |
| DateRepair.MonthRangeGluedCleaned | ModsTransformer.py:324-332 | cleaning leaves `Month1-Month2YYYY` as it is, and the `January 1973` search finds nothing in it |
| DateRepair.MonthRangeGluedStops | ModsTransformer.py:346 | the `Jan 1999` pattern does not match `Month1-Month2YYYY` |
| DateRepair.MonthRangeGluedMatch | ModsTransformer.py:353-355 | the `November-December, 2010` pattern reads both months and the year of `Month1-Month2YYYY` |
| DateRepair.MonthRangeSpacedStored | ModsTransformer.py:324-343 | `November-December, 2010` loses its comma, and the `January 1973` search then finds the second month and the year, so only `2010-12` is stored |
| DateRepair.MonthRangeSpacedCleaned | ModsTransformer.py:324-329 | cleaning `Month1-Month2, YYYY` only removes the comma |
| DateRepair.MonthRangeSpacedSearch | ModsTransformer.py:332 | in `Month1-Month2 YYYY` the leftmost word-year match is the second month |
| DateRepair.MonthRangeSpacedValue | ModsTransformer.py:334-342 | the value stored for `Month1-Month2 YYYY` is the year and the second month's number |
| DateRepair.ShortRangeStored | ModsTransformer.py:361-369 | `CCYY-YY` from 1800 to 2099 is stored as `CCYY/CCYY`, the second year taking the first year's century, except that `1999` takes `20` |
| DateRepair.ShortRangeRule | ModsTransformer.py:361-369 | a value with no word-year match that starts with 18, 19 or 20, two digits, `-` and two digits is decided by the `1982-83` rule |
| DateRepair.ShortRangeSplit | ModsTransformer.py:364-368 | the pieces of a seven-character `CCYY-YY` give the year, `/`, the century and the last two digits |
| DateRepair.DayRangeSplit | ModsTransformer.py:361-369 | in `CCYY-MM-DD` the `1982-83` rule keeps the year and month and drops the day |
| DateRepair.CorrectedShortRange | ModsTransformer.py:327-369 | a corrected mistake that matches the `1982-83` rule is stored as that rule's expansion of the correction |
| DateRepair.FebruaryEntry | ModsTransformer.py:315 | the table corrects `8 Feb 1990` to `1990-02-08` |
| DateRepair.FebruaryCorrectionValue | ModsTransformer.py:361-369 | the `1982-83` rule reads `1990-02-08` as the range `1990/1902` |
| DateRepair.FebruaryCorrectionReprocessed | ModsTransformer.py:314-369 | `8 Feb 1990` ends up stored as `1990/1902` |
| DateRepair.SeptEntry | ModsTransformer.py:316 | the table corrects `Sept 1993` to `1993-09` |
| DateRepair.SeptCorrectionReprocessed | ModsTransformer.py:314-369 | `Sept 1993` ends up stored as `1993/1909` |
| DateRepair.WinterEntry | ModsTransformer.py:317 | the table corrects `Winter 2005` to `2005-24` |
| DateRepair.WinterCorrectionReprocessed | ModsTransformer.py:314-369 | `Winter 2005` ends up stored as `2005/2024` |
| DateRepair.NovemberEntry | ModsTransformer.py:318 | the table corrects `November. 2008` to `2008-11` |
| DateRepair.NovemberCorrectionReprocessed | ModsTransformer.py:314-369 | `November. 2008` ends up stored as `2008/2011` |
| DateRepair.SearchWordYearFinds | ModsTransformer.py:332 | the search finds the first position that matches |
| DateRepair.FullDateLosesMonth | ModsTransformer.py:329-343 | `Month D, YYYY` loses its comma, and then the `January 1973` search reads the day and year, so `YYYY-??` is stored |
| DateRepair.FullDateSteps | ModsTransformer.py:324-332 | for `Month D, YYYY` cleaning drops the comma and the search finds the day and the year |
| DateRepair.FullDateUnknown | ModsTransformer.py:334-342 | the day found before the year gives the stored value `YYYY-??` |
| DateRepair.DigitsAreNoMonth | ModsTransformer.py:341 | a number is never a month name, so it maps to `??` |
| DateRepair.FullDateCleaned | ModsTransformer.py:324-329 | cleaning `Month D, YYYY` only removes the comma |
| DateRepair.FullDateSearch | ModsTransformer.py:332 | in `Month D YYYY` the leftmost word-year match is the day and year |
| DateRepair.FullDateValue | ModsTransformer.py:334-342 | the value stored for `Word D YYYY` is the year and the month number of the day |
| Transformer.ModsTransformer.FixDates | ModsTransformer.py:308-394 | a missing key raises `KeyError` and a value that is not a string raises `AttributeError`, both leaving the summary unchanged; otherwise only `summary[key]` changes, to the value the first applicable rule stores, or it keeps its old value |
| Transformer.ModsTransformer.RunRules | ModsTransformer.py:331-392 | the rules in order on the cleaned value store exactly what the rule cascade function stores |
| Transformer.ModsTransformer.RunNumericRules | ModsTransformer.py:361-392 | the `1982-83` and full-date rules, then the rest, store exactly what the cascade from that point stores |
| Transformer.ModsTransformer.RunFullDate | ModsTransformer.py:372-382 | the full-date rule with its February 29 1990 correction stores the calendar date, or nothing when the calendar rejects it |
| Transformer.ModsTransformer.RunFinalRules | ModsTransformer.py:383-392 | the `YYYY-YYYY`, `ca.` and EDTF rules store exactly what the final rules store |
| Transformer.ModsTransformer.constructor | ModsTransformer.py:9-10 | a new transformer starts with an empty summary |
| Transformer.ModsTransformer.StoreStrings | ModsTransformer.py:429-436 | the loop over the plain-text children, storing each with its lines joined by spaces, reaches exactly the summary, or the `KeyError`, of the plain-text step |
| Transformer.ModsTransformer.StoreOriginEntries | ModsTransformer.py:442-443 | the loop over the children of one `originInfo` reaches exactly the summary or the exception of storing each child under its field |
| Transformer.ModsTransformer.StoreOriginInfo | ModsTransformer.py:439-443 | the loop over every `originInfo`, a single one counting as a list of one, reaches exactly the `originInfo` step's summary or exception |
| Transformer.ModsTransformer.StoreSubjects | ModsTransformer.py:446-453 | the loop over the children of `subject` reaches exactly the subject step's summary or exception |
| Transformer.ModsTransformer.StoreRelated | ModsTransformer.py:456-461 | the loop collecting the related titles reaches the related-item step's summary or its exception |
| Transformer.ModsTransformer.StoreTitles | ModsTransformer.py:464-473 | the `titleInfo` loop reaches the title step's summary or its exception |
| Transformer.ModsTransformer.StoreLocations | ModsTransformer.py:475-480 | the location loop, rewriting `field_location` after each item, reaches the location step's summary |
| Transformer.ModsTransformer.StorePhysical | ModsTransformer.py:481-486 | storing `form.#text` and `extent` of `physicalDescription` reaches exactly the physical-description step's summary or exception |
| Transformer.ModsTransformer.StoreResourceType | ModsTransformer.py:487 | storing the `#text` of `typeOfResource`, or `''`, reaches exactly the resource-type step's summary or exception |
| Transformer.ModsTransformer.StoreNames | ModsTransformer.py:488-493 | the loop calling `ParseName` on each name reaches the name step's summary or its exception |
| Transformer.ModsTransformer.FixEdtfDates | ModsTransformer.py:495-497 | the date pass reaches the state `DatePass` describes, whatever order the keys are visited in |
| Transformer.ModsTransformer.StoreEarly | ModsTransformer.py:438-473 | the `originInfo`, `subject`, `relatedItem` and `titleInfo` steps in order |
| Transformer.ModsTransformer.StoreLate | ModsTransformer.py:474-487 | the `location`, `physicalDescription` and `typeOfResource` steps in order |
| Transformer.ModsTransformer.HarvestRest | ModsTransformer.py:438-497 | the steps after the plain-text children return what `Harvest` returns, and on success leave it in `summary` |
| Transformer.ModsTransformer.ExtractFromMods | ModsTransformer.py:425-499 | `extract_from_mods` returns `Extract` of the parsed document, and on success the summary is the result |
| ModsProperties.StringFieldsWrites | ModsTransformer.py:429-436 | the plain-text step succeeds exactly when every plain-text child has a field, and writes only table fields |
| ModsProperties.OriginEntriesWrites | ModsTransformer.py:442-443 | one `originInfo` succeeds exactly when each of its children, attributes included, has a field, and writes only table fields |
| ModsProperties.OriginItemsWrites | ModsTransformer.py:440-443 | the loop over the `originInfo` elements writes only table fields |
| ModsProperties.OriginInfoWrites | ModsTransformer.py:439-443 | the `originInfo` step writes only table fields |
| ModsProperties.SubjectEntriesWrites | ModsTransformer.py:447-453 | the loop over the children of `subject` writes only the two subject fields |
| ModsProperties.SubjectsWrites | ModsTransformer.py:446-453 | the `subject` step writes only the two subject fields |
| ModsProperties.TitleFoldWrites | ModsTransformer.py:465-473 | the title loop writes only `title`, `field_subtitle` and `field_alternative_title` |
| ModsProperties.TitlesWrites | ModsTransformer.py:464-473 | the `titleInfo` step writes only `title`, `field_subtitle` and `field_alternative_title` |
| ModsProperties.LocationFoldWrites | ModsTransformer.py:478-480 | the location loop writes only `field_location` |
| ModsProperties.LocationsWrites | ModsTransformer.py:475-480 | the `location` step writes only `field_location` |
| ModsProperties.DatePassWrites | ModsTransformer.py:495-497 | the date pass keeps the keys and every field whose name lacks `edtf`, replaces each EDTF field by its repaired value, and fails exactly when an EDTF field is not a string |
| ModsProperties.DatePassKeeps | ModsTransformer.py:495-497 | a field whose name lacks `edtf` keeps the value set earlier |
| ModsProperties.EarlyStepsWrite | ModsTransformer.py:438-473 | the early steps write only their own fields |
| ModsProperties.LateStepsWrite | ModsTransformer.py:474-487 | the late steps write only `field_location`, `field_physical_description`, `field_extent` and `field_resource_type` |
| ModsProperties.HarvestKeys | ModsTransformer.py:438-497 | after the plain-text children, the steps add only known target fields |
| ModsProperties.ExtractKeys | ModsTransformer.py:425-499 | every key of an extracted summary is a known target field |
| ModsProperties.RelatedFoldAppends | ModsTransformer.py:458-460 | the related-title loop appends the titles of the items in order, and fails exactly when reading one fails |
| ModsProperties.RelatedTitlesInOrder | ModsTransformer.py:459-460 | the `i`-th related title is `titleInfo.title` of the `i`-th item, `''` by default; the titles exist exactly when every item can be read |
| ModsProperties.EarlyRelated | ModsTransformer.py:455-461 | after the early steps `field_related_item` holds the join with a vertical bar of the related titles |
| ModsProperties.TitleFoldKeeps | ModsTransformer.py:466-473 | the title loop leaves every field except the three title fields as it was |
| ModsProperties.LocationFoldKeeps | ModsTransformer.py:478-480 | the location loop leaves every field except `field_location` as it was |
| ModsProperties.LateStepsKeep | ModsTransformer.py:474-487 | the late steps leave every field they do not write as it was |
| ModsProperties.RelatedItemIsNoDate | ModsTransformer.py:495-497 | `field_related_item` does not contain `edtf`, so the date pass leaves it alone |
| ModsProperties.HarvestRelatedItem | ModsTransformer.py:455-497 | after every later step, `field_related_item` still holds the join with a vertical bar of the related titles |
| ModsProperties.ExtractRelatedItem | ModsTransformer.py:455-461 | `field_related_item` is always in an extracted summary and is the vertical-bar join, in document order, of the related titles |
| ModsProperties.LocationFoldJoins | ModsTransformer.py:477-480 | after at least one location, `field_location` is the join with a vertical bar of every location read; with none it is never written |
| ModsProperties.FirstTitle | ModsTransformer.py:466-468 | the first non-`None` title is never `None` |
| ModsProperties.FirstTitleWins | ModsTransformer.py:466-468 | a title already in the summary is kept; otherwise the first non-`None` title becomes `title`; with none, no title is written |
| ModsProperties.MissingTitleFails | ModsTransformer.py:464 | a record without `titleInfo` fails with `KeyError` |
| ModsProperties.StringResourceTypeLost | ModsTransformer.py:429-487 | a plain-text `typeOfResource` is deleted with the other plain-text children, so `field_resource_type` becomes `''` |
| ModsProperties.NamesFoldSucceeds | ModsTransformer.py:490-492 | the name loop fails exactly when encoding one of the names fails |
| ModsProperties.NamesFoldAppends | ModsTransformer.py:490-492 | when every name can be encoded, the name loop appends their encodings in order |
| ModsProperties.EncodingsInOrder | ModsTransformer.py:491-492 | the `i`-th encoding is that of the `i`-th name, and they exist exactly when every name can be encoded |
| ModsProperties.LinkedAgentsJoin | ModsTransformer.py:488-493 | `field_linked_agent` is the join with a vertical bar of `parse_name` of each name in document order; the step fails exactly when one `parse_name` fails |
| ModsLastWrite.StringWrite | ModsTransformer.py:434-435 | what one child of the record writes in the plain-text loop: its joined lines under its field |
| ModsLastWrite.OriginWrite | ModsTransformer.py:442-443 | what one child of an `originInfo` writes: itself under its field |
| ModsLastWrite.SubjectWrite | ModsTransformer.py:447-453 | what one child of `subject` writes: `geographic` and `topic` themselves, a readable `hierarchicalGeographic` its non-`None` values joined with `,` |
| ModsLastWrite.LastWrite | ModsTransformer.py:429-453 | the value of the last child that writes a field is the value written by a child after which no child writes that field; with none, no child writes it |
| ModsLastWrite.LastWriteAppend | ModsTransformer.py:439-443 | in a concatenation the second part's last write wins, and the first part's counts only when the second writes nothing |
| ModsLastWrite.StringFieldsLast | ModsTransformer.py:429-436 | after the plain-text loop each field holds the joined lines of the last plain-text child stored under it; a field no such child reaches is as it was |
| ModsLastWrite.OriginEntriesLast | ModsTransformer.py:442-443 | after one `originInfo` each field holds the last child stored under it; other fields are as they were |
| ModsLastWrite.OriginItemsLast | ModsTransformer.py:439-443 | across several `originInfo` elements each field holds the last child of any of them stored under it, so a later `originInfo` overwrites an earlier one |
| ModsLastWrite.SubjectEntriesLast | ModsTransformer.py:447-453 | after the `subject` loop `field_geographic_subject` holds the last of the `geographic` and readable `hierarchicalGeographic` children, and `field_subject` the last `topic` |
| ModsLastWrite.SubjectsLast | ModsTransformer.py:446-453 | the same for the record's `subject` element, which is then a dict |
| ModsLastWrite.HierarchicalAfterGeographic | ModsTransformer.py:447-453 | a `hierarchicalGeographic` after a `geographic` replaces it with the joined place names |
| Worksheet.ContentModel | ImportUtilities.py:207-229 | `content_map`: the Islandora content models and their Drupal names; properties in `ImportUtilities.MapWorksheetValues` and `MigrationPrep.MapWorksheetValues` |
| Worksheet.Collect | ImportUtilities.py:233-239 | every field the column loop writes holds a string, never `None` |
| Worksheet.LastValue | ImportUtilities.py:234-239 | a field's value is the cell of the last non-blank column sent to it, and it is absent when there is no such column |
| Worksheet.CollectIsLast | ImportUtilities.py:233-239 | the column loop writes exactly the fields some non-blank mapped column reaches, each with the cell of the last such column |
| Worksheet.CollectRow | ImportUtilities.py:233-239 | the loop over the row, with `None` read as `''` and blank cells skipped, writes exactly the last non-blank mapped cell of each field |
| ImportUtilities.Column | ImportUtilities.py:200-206 | every mapped column goes to `field_model`, `field_pid`, `field_member_of` or `field_weight` |
| ImportUtilities.MapWorksheetValues | ImportUtilities.py:199-243 | every key is one of the four fields; a field is present exactly when a non-blank mapped column reaches it; each holds the last such cell, and `collection_pid` and `page_of` share `field_member_of`; `field_model` is translated, `None` when the model is unknown |
| ImportUtilities.UnknownColumnsDropped | ImportUtilities.py:234-235 | a row of columns the map does not know comes out empty |
| ImportUtilities.FedoraUri | ImportUtilities.py:92-93 | the URI is `info:fedora/` followed by the identifier character by character, each `+` replaced by `/` and every other character kept, so it holds no `+` |
| ImportUtilities.Filled | ImportUtilities.py:97-107 | filling keeps the template's length |
| ImportUtilities.FilledTemplate | ImportUtilities.py:97-107 | with two or more hash characters the template becomes the first two; one character fills only the first `#`; an empty hash leaves `##` |
| ImportUtilities.EncodedId | ImportUtilities.py:110-111 | the encoded identifier holds no `_` |
| ImportUtilities.FillTemplate | ImportUtilities.py:97-107 | the `while` loop over the character array with `pattern_offset` and `hash_offset` gives exactly the filled template |
| ImportUtilities.Dereference | ImportUtilities.py:90-112 | the path is the filled template, `/`, and the encoded identifier of the Fedora URI |
| ImportUtilities.DereferenceShape | ImportUtilities.py:95-112 | for a digest of two characters or more, the path is the digest's first two characters, `/`, then an encoded identifier without `_` |
| MigrationPrep.Column | MigrationPrep.py:147-154 | every mapped column goes to `field_model`, `field_pid`, `field_member_of`, `field_weight` or `title` |
| MigrationPrep.MapWorksheetValues | MigrationPrep.py:146-190 | the result is `KeyError` of the model id exactly when a model column with a non-blank cell exists and its last such cell is not in the content map; otherwise every key is one of the five fields and holds a string, a field is present exactly when a non-blank mapped column reaches it, every other field holds the last such cell, and `field_model` is translated |
| MigrationPrep.UnknownColumnsIgnored | MigrationPrep.py:182-183 | cells of columns the map does not know, such as `nid`, `dublin_core` and `mods`, never change the output |
| MigrationPrep.ModelColumn | MigrationPrep.py:147-187 | a `content_model` cell reaches `field_model`; a `None` one leaves no `field_model` |

## Left out

- XML parsing by `xmltodict`: the model starts from the parsed tree. A repeated element is a
  list and a single one a dict, as `xmltodict` produces them.
- The EDTF validator `edtf_validate.valid_edtf.is_valid` is the parameter `isEdtf`. MD5 and
  `urllib.parse.quote` are the parameters `md5` and `quote`.
- `datetime.strptime`/`strftime` is modelled by an explicit calendar check
  (`DateRepair.CalendarDate`). Locale-dependent month names and the other formats `%d` accepts
  are not modelled.
- Regular expressions are explicit recognizers with ASCII `\w` and `\d`. Python's Unicode
  classes are not modelled.
- The `print` diagnostics of `fix_dates`: a date that is reported keeps its value.
- `repr`, `str` of nested containers and the escaping of quotes inside them are simplified.
- Python dicts keep insertion order; the summary is a Dafny `map`, which has none. The date pass
  visits the keys in an arbitrary order; its result does not depend on that order.
- When an exception ends `extract_from_mods`, the model returns the exception and does not
  describe the partly filled `self.summary`.
- The unused lists `to_harvest`, `ignored` and `outputs` (ModsTransformer.py:284-286, 431,
  398) have no effect and are not modelled.
- A worksheet cell is a string or `None`. Other cell types, which would make `strip` raise, are
  not modelled.
- Everything else in the repository is I/O plumbing and is not part of this model:
  - SQLite, CSV, pickle and the file system;
  - `FoxmlWorker.py`, `ImportProcessor.py`, `ImportServerUtilities.py` and `GetFileSize.py`;
  - `human_readable_time`;
  - the rest of `ImportUtilities.py` and `MigrationPrep.py`.
- PyStr.Capitalize: case mapping covers ASCII letters only. Python's `capitalize` also maps
  other letters, some to more than one character (`ß` becomes `Ss`), so a non-ASCII role term
  may be capitalized differently.
- ModsSteps.Extract: a name whose `parse_name` fails, or a date field that is not a string, ends
  the extraction with an exception, as the code does.

## Where the code does not do what its comments and names suggest

The model follows the code. These are the places where it departs from what its comments, names
and tables suggest:

- `8 Feb 1990` is corrected to `1990-02-08`, but the `1982-83` rule then reads that as a
  two-digit range, so `1990/1902` is stored (`DateRepair.FebruaryCorrectionReprocessed`).
- The same happens to `Sept 1993`, corrected to `1993-09` and stored as `1993/1909`; to
  `Winter 2005`, corrected to `2005-24` and stored as `2005/2024`; and to `November. 2008`,
  corrected to `2008-11` and stored as `2008/2011` (`DateRepair.SeptCorrectionReprocessed`,
  `DateRepair.WinterCorrectionReprocessed`, `DateRepair.NovemberCorrectionReprocessed`).
- The spaced forms these two rules are named after never reach them: the `January 1973` rule
  catches them first. `Jan 1999` is stored as `1999-??`, because `Jan` is not a full month name
  (`DateRepair.WordYearStored`), and `November-December, 2010` as `2010-12`, the second month
  only (`DateRepair.MonthRangeSpacedStored`).
- The `Jan 1999` and `November-December, 2010` rules return their value instead of storing it,
  so a form that reaches them, a month glued to its year such as `May2005` or
  `November-December2010`, leaves the summary with the old value
  (`DateRepair.MonthGluedDiscarded`, `DateRepair.MonthRangeGluedDiscarded`).
- The `Month D, YYYY` rule can never apply, because commas are removed before it runs
  (`DateRepair.CalendarRuleUnreachable`). Such a date is stored as `YYYY-??`
  (`DateRepair.FullDateLosesMonth`).
- A date no rule accepts keeps its original stored value, not the cleaned one.
- A `typeOfResource` given as plain text is deleted with the other plain-text children, so
  `field_resource_type` becomes `''` (`ModsProperties.StringResourceTypeLost`).
- The subtitle branch tests the key `field_subtitle` on a `titleInfo` entry, which MODS never
  uses. The model keeps the test as written.
- An `@type` other than `personal` or `corporate` raises `KeyError`. It does not fall back to
  `corporate_body`.
