# Odoo morning task list and recap report — a Dafny model

`tasks_odoo_live.py` is a small Streamlit tool. It reads planning data
from an Odoo server over XML-RPC and produces one of two Word reports:

* **Morning task list.** It fetches the `planning.slot` records whose
  start lies in a chosen range of days. These can be narrowed by saved
  favourites, which are `ir.filters` entries holding a search domain.
  It groups the slots by the designer (`resource_id`) and writes one
  table row per designer. The row holds a text block per slot: role,
  parent task, sub-task, the sub-task's service category and number of
  units (read from `project.task`), and the date range.
* **Recap.** It fetches the `x_recaps` entries created in the chosen
  days. Optionally it keeps only those whose creator is among the
  employees the selected favourites select. It groups them by creator
  and writes one row per entry.

This project models the logic between the remote calls, as pure Dafny
functions over immutable data:

* `values.dfy`: the values XML-RPC hands back, with Python truthiness,
  `dict.get`, `str()` inside f-strings, and many2one label extraction
  (`get_field_name`).
* `text.dfy`: `str.join`, `str.split` on one character, and
  `format_datetime_range`.
* `domains.dfy`: Odoo domains in flat prefix notation. Covers
  `parse_domain` (the literal parser is a parameter),
  `combine_domains_or`, the date window and the final query.
* `domain_eval.dfy`: what such a domain means to the server. Each
  `'|'`/`'&'` takes the two terms after it, `'!'` takes one, and
  top-level terms are ANDed. Leaves are judged by an oracle. The file
  holds the proofs about the combined query, including the finding
  below and its correction.
* `favorites.dfy`: looking up the selected favourites, collecting their
  non-empty domains, and `get_employees_from_favorites`.
* `fetch.dfy`: gathering the sub-task ids, their de-duplication, and
  `fetch_subtask_details`.
* `grouping.dfy`: the `setdefault(key, []).append(x)` grouping as an
  insertion-ordered sequence of groups. Covers partition, first-seen key
  order, sizes, and the flattening the recap table does.
* `morning.dfy`: `build_morning_text`, as a sequence of typed lines
  rendered and joined with newlines.
* `recap.dfy`: `build_recap_notes_text`, the same way.
* `reports.dfy`: the two branches of `main`. Each takes the remote
  searches and reads as function parameters and returns the table rows
  or the message shown instead.

The remote calls are parameters of the functions and methods that use
them:

* `searchTasks` stands for `get_tasks`.
* `read` stands for the `project.task` read in `fetch_subtask_details`.
* `searchEmployees` stands for the `hr.employee` search in
  `get_employees_from_favorites`.
* `searchRecaps` stands for `get_recaps`.
* `literal` stands for `ast.literal_eval`.

Each of these returns `None` where the Python call raises. The favourite
list that `get_planning_favorites` returns is an input.

Three details of the code that the model keeps:

* Each designer's slots stay in fetch order. Timestamps are printed as
  fetched, with no re-sorting and no timezone shift
  (tasks_odoo_live.py:150-154, 324-328).
* A service category is printed with `str()`. A relation value prints
  as its list, not as its label (tasks_odoo_live.py:143-146).
* A recap sub-task is printed only when it is a list of at least two
  elements. A plain string prints nothing (tasks_odoo_live.py:221-223).

## Model

| member | source | states |
|---|---|---|
| Values.FieldName | tasks_odoo_live.py:52-55 | The label is element [1] exactly when the value is a list of more than one element; for every other value it is `""`, which is falsy |
| Values.FieldNameTolerates | tasks_odoo_live.py:52-55 | None, False, an integer, a string, `[]` and a one-element list all give `""`; `[id, name]` gives `name` |
| Values.Format | tasks_odoo_live.py:128 | An f-string placeholder prints a string value unchanged, and prints nothing only for the empty string |
| Values.IntToString | tasks_odoo_live.py:148 | `str()` of an integer is canonical decimal: digits with no leading zero (`0` alone for zero), preceded by `-` exactly when the number is negative, reading back as the same number |
| Values.CanonicalUnique | tasks_odoo_live.py:148 | Canonical decimal text is unique: a digit string without a leading zero is exactly what `str()` prints for the number it reads as |
| Values.Display | tasks_odoo_live.py:150-151 | `value or ""` prints nothing exactly when the value is falsy, and otherwise prints the value's text |
| Text.FormatRange | tasks_odoo_live.py:57-62 | Empty exactly when both ends are empty; the start alone when the end is empty; otherwise start, `" -> "` and end, even when the start is empty |
| Text.Join | tasks_odoo_live.py:155 | `sep.join` (also lines 185 and 237): `""` for no strings; otherwise the strings' total length plus one separator between each pair |
| Text.SplitSpaced | tasks_odoo_live.py:185 | Blocks of newline-free lines, each joined with `"\n"` and then joined with `"\n\n"`, split at newlines into the blocks' lines with exactly one `""` between consecutive blocks |
| Text.SplitJoin | tasks_odoo_live.py:155 | Joining newline-free lines with `"\n"` and splitting the result at newlines gives back the same lines |
| Domains.ParseDomain | tasks_odoo_live.py:38-42 | The parsed list when the literal parser succeeds; the empty domain when it fails or when the stored value is not a string |
| Domains.CombineDomainsOr | tasks_odoo_live.py:44-50 | No domains give `[]` and one domain is returned unchanged; n domains give n-1 `'\|'` tokens followed by the domains in order, so the length is their total length plus n-1 |
| Domains.FinalDomain | tasks_odoo_live.py:320 | The date window alone when the favourites' domain is empty; otherwise `'&'`, then the window, then the favourites' domain |
| DomainEval.CombineSingleTerms | tasks_odoo_live.py:44-50 | When every input is one complete term, the fold is one complete term that holds exactly when some input holds |
| DomainEval.CombineMisgroupsImplicitAnd | tasks_odoo_live.py:44-50 | Favourite `[A, B]` ORed with favourite `[C]` gives `['\|', A, B, C]`, which does not select a record matching only `C` |
| DomainEval.NormalizePreservesMeaning | tasks_odoo_live.py:312-314 | A non-empty well-formed favourite domain rewritten as one term selects exactly the records it selected before |
| DomainEval.CombineWellFormed | tasks_odoo_live.py:44-50 | Folding non-empty well-formed domains the way the code does gives a well-formed domain, non-empty when there is at least one domain |
| DomainEval.CombineDomainsOrNormalized | tasks_odoo_live.py:44-50 | The corrected combination of non-empty domains is empty exactly when there are no domains |
| DomainEval.CombineNormalizedIsOr | tasks_odoo_live.py:44-50 | The corrected combination is well formed and selects a record exactly when some favourite's domain selects it |
| DomainEval.DateDomainMeaning | tasks_odoo_live.py:316-319 | The date window is well formed and selects exactly the records whose start lies between the two bounds |
| DomainEval.FinalDomainIsConjunction | tasks_odoo_live.py:320 | The final query is well formed and selects exactly the records inside the date window that the favourites' domain also selects |
| Favorites.LookupFavorite | tasks_odoo_live.py:310 | None exactly when no favourite has the name; otherwise the first favourite with that name |
| Favorites.SelectedDomain | tasks_odoo_live.py:310-314 | A selected name contributes at most one domain, never an empty one, and contributes one exactly when a favourite of that name has a domain that parses to something non-empty |
| Favorites.FlatMapMembers | tasks_odoo_live.py:308-314 | The collecting loop's result holds an element exactly when one of the per-name contributions holds it |
| Favorites.FavoriteDomains | tasks_odoo_live.py:308-314 | At most one domain per selected name, no collected domain is empty, and selecting no name collects no domain |
| Favorites.FavoriteDomainsStep | tasks_odoo_live.py:309-314 | One more selected name appends its domain, if it contributes one, after the domains collected so far: the domains come one per contributing name, in selection order |
| Favorites.FavoriteDomainsCollect | tasks_odoo_live.py:308-314 | A domain is collected exactly when some selected name finds a favourite whose domain parses to it |
| Favorites.FavoriteWithoutDomainIgnored | tasks_odoo_live.py:312-313 | A favourite with no stored domain falls back to `"[]"` and contributes nothing |
| Favorites.NamesOf | tasks_odoo_live.py:269-272 | The names added for one search are exactly the truthy `name` values of the employees it returned |
| Favorites.EmployeeNames | tasks_odoo_live.py:258-275 | A name is allowed exactly when some domain's employee search succeeded and returned an employee with that truthy name; a failing search adds none |
| Favorites.AllowedNames | tasks_odoo_live.py:363 | No filter exactly when no favourite contributed a domain; otherwise the employee names of those domains |
| Fetch.SubtaskIds | tasks_odoo_live.py:329-333 | An id is gathered exactly when some slot's sub-task value is a non-empty list starting with it; at most one id per slot |
| Fetch.UniqueIds | tasks_odoo_live.py:106 | The same set of ids, each once |
| Fetch.IndexById | tasks_odoo_live.py:118 | Defined exactly when every record has an `id`; its keys are exactly the records' ids, and each maps to a fetched record carrying that id |
| Fetch.FetchSubtaskDetails | tasks_odoo_live.py:103-121 | No ids means no read and an empty map; otherwise one read of the same ids without repeats; a failing read gives an empty map; every entry is keyed by its own `id` |
| Grouping.Insert | tasks_odoo_live.py:328 | `setdefault(k, []).append(x)`: appends to the existing group of `k`, or adds the group `(k, [x])` at the end; keys stay distinct and nothing else changes |
| Grouping.GroupByCovers | tasks_odoo_live.py:324-328 | Every input's key has a group, and no group is empty |
| Grouping.GroupByPartitions | tasks_odoo_live.py:324-328 | Each group holds exactly the inputs with its key, in input order |
| Grouping.GroupByFirstSeen | tasks_odoo_live.py:324-328 | The group keys are the inputs' keys, each once, in first-seen order |
| Grouping.GroupBySize | tasks_odoo_live.py:324-328 | The groups together hold as many members as there were inputs |
| Grouping.GroupByFlatten | tasks_odoo_live.py:246-250 | Walking the groups in order yields exactly the pairs (key of x, x) for the inputs x |
| Grouping.GroupByMapped | tasks_odoo_live.py:246-250 | One output per walked pair gives exactly the images of the inputs under their keys |
| Text.LabelledLine | tasks_odoo_live.py:128 | A line `f"{label}: {value}"` with a one-line label holds a newline exactly when its value does; both blocks render their lines with it |
| Morning.SlotOf | tasks_odoo_live.py:126-154 | The sub-task's details are read exactly when the sub-task value is a non-empty list whose first element is a truthy id present in the fetched map, and then they come from that record; the date range is non-empty exactly when the start or the end is truthy |
| Morning.DetailOf | tasks_odoo_live.py:143-144 | The service category and the number of units are the sub-task record's fields, `''` when the record lacks them |
| Morning.SubtaskRecord | tasks_odoo_live.py:140-142 | A fetched sub-task is used exactly when the id is truthy and present in the map, and then it is the map's record for that id, `subtask_map[sub_id]` |
| Morning.RangeOf | tasks_odoo_live.py:150-154 | The date range is non-empty exactly when the start or the end is truthy |
| Morning.DetailLines | tasks_odoo_live.py:143-148 | Service Category then No. of Units, each exactly when its value is truthy, each with the value's text |
| Morning.SubLines | tasks_odoo_live.py:136-148 | Under a parent task: Sub Task exactly when the sub-task label is truthy; Service Category and Units only under it, when the sub-task resolved and the value is truthy |
| Morning.ParentLines | tasks_odoo_live.py:130-148 | Always a Parent Task line; the sub-task lines obey the same rules as above |
| Morning.SlotLinesMeaning | tasks_odoo_live.py:123-155 | A line of each kind exactly when its source is present, with the Parent Task line always there; kinds appear in the fixed order Role, Parent, Sub, Service Category, Units, Date Range, none twice; each line carries its field's text |
| Morning.BuildMorningText | tasks_odoo_live.py:123-155 | A slot's block is never empty |
| Morning.MissingParentHidesSubtask | tasks_odoo_live.py:130-132 | Without a parent task name (no relation, or a relation whose label is falsy) the block has the line `Parent Task: Missing Parent Task` and no Sub Task, Service Category or Units line |
| Morning.MorningTextSplits | tasks_odoo_live.py:155 | When no field text holds a newline, the block splits back into its rendered lines, so it has no blank line |
| Recap.RecapLinesMeaning | tasks_odoo_live.py:217-236 | The entry's lines (`Recap.RecapLines`) have a line of each kind exactly when its field is present (a list of two or more for the two relations, a truthy value otherwise), in the fixed order Parent Task, Sub Task, Shift, Recap Category, Comment, Date & Time, each with its field's text |
| Recap.RecapLinesEmpty | tasks_odoo_live.py:217-237 | No line exactly when none of the six fields is present |
| Recap.BuildRecapText | tasks_odoo_live.py:217-237 | The text is `""` exactly when none of the six fields is present |
| Recap.RecapTextSplits | tasks_odoo_live.py:237 | When no field text holds a newline, the text splits back into its rendered lines |
| Reports.OwnerName | tasks_odoo_live.py:326-327 | The relation's label when the field is a list of two or more, `"Unassigned"` otherwise |
| Reports.DayWindow | tasks_odoo_live.py:296-297 | The bounds `day 00:00:00` and `day 23:59:59` enclose, in text order, a timestamp `d HH:MM:SS` with a valid time of day and a date as wide as `day` exactly when `d` is `day` |
| Reports.MorningQueryMeaning | tasks_odoo_live.py:308-320 | The query as the code builds it is well formed and selects exactly the slots starting inside the chosen days that the code's OR-fold of the favourites' domains also selects, or all of them when no favourite contributed a domain; when every favourite domain is one term, that is exactly the slots some favourite selects |
| Reports.SingleFavouritesAreOr | tasks_odoo_live.py:44-50 | When every favourite domain is one complete term, the code's fold selects a record exactly when some favourite selects it |
| Reports.CorrectedMorningQueryMeaning | tasks_odoo_live.py:308-320 | With each favourite normalised to one term before the OR, the query selects exactly the slots inside the chosen days that some selected favourite's domain selects, or all of them when no favourite contributed a domain |
| Reports.MorningCell | tasks_odoo_live.py:179-185 | A designer's cell is empty exactly when the designer has no slots |
| Reports.MorningCellLines | tasks_odoo_live.py:179-185 | When no field text holds a newline, the cell splits at newlines into each slot's rendered lines, slot by slot, with exactly one `""` between consecutive slots |
| Reports.MorningRows | tasks_odoo_live.py:173-185 | One row per designer group, in group order, holding the designer's name and the cell of that designer's slots |
| Reports.MorningRowsCoverTasks | tasks_odoo_live.py:173-185 | One row per distinct designer, in first-seen order; each row's cell is non-empty and holds exactly that designer's slots; together the rows hold every slot once |
| Reports.MorningReport | tasks_odoo_live.py:307-344 | The query sent is the one the code builds, with the code's OR-fold; the outcome is the "no tasks" failure exactly when no slot came back, and no other failure outcome is possible; otherwise it is a report of at least one row, one per designer group |
| Reports.KeptRecaps | tasks_odoo_live.py:377-378 | A recap is kept exactly when there is no filter or its creator's name is allowed; for each creator, the kept recaps of that creator are all of theirs in fetch order when the creator is allowed, and none otherwise |
| Reports.KeptAllWhenUnfiltered | tasks_odoo_live.py:363 | Without a filter every recap is kept, in fetch order |
| Reports.RecapQueryMeaning | tasks_odoo_live.py:366-369 | The recap query is well formed; comparing `create_date` as text, it selects a recap created at `d t` exactly when that lies between the start day's `00:00:00` and the end day's `23:59:59`, and for a one-day range exactly when `d` is that day |
| Reports.RecapGroupsMeaning | tasks_odoo_live.py:373-379 | The recap grouping has the creators of the kept recaps as keys, each once, in first-seen order; each group's creator is allowed and the group holds exactly that creator's fetched recaps, in fetch order |
| Reports.RecapRows | tasks_odoo_live.py:246-250 | One row per grouped recap |
| Reports.RecapReport | tasks_odoo_live.py:370-392 | The "no recaps in the date range" message appears exactly when the search returned nothing |
| Reports.RecapReportMeaning | tasks_odoo_live.py:371-390 | After a non-empty fetch, the outcome is the "no match" failure exactly when the filter dropped every recap, and no other failure outcome is possible. Otherwise there is one row per kept recap, and the rows are exactly the kept recaps' rows under their creators. Without a filter there is one row per fetched recap. The creator groups come in first-seen order among the kept recaps, and each holds that creator's recaps in fetch order |
| Reports.RecapRowsOfKept | tasks_odoo_live.py:373-379 | The rows of the creator grouping are exactly the rows of the kept recaps |

## Left out

- The Streamlit page, the XML-RPC connection and authentication, and the
  python-docx document are left out. Only each branch's final outcome is
  modelled: the table rows, as (designer, text) pairs, or the one
  failure message shown instead of a report. They are I/O and foreign
  libraries.
- `get_tasks`, `get_recaps`, the read in `fetch_subtask_details` and the
  searches in `get_employees_from_favorites` are function parameters.
  They are network calls. An exception becomes `None`, and the code
  turns it into an empty list or map.
- The favourite list that `get_planning_favorites` returns is a plain
  input, `favs`. A failed fetch of it gives `[]` in the code, which is
  one of the inputs the model covers.
- Reports.MorningReport models only the final outcome. The
  `st.success` count message (tasks_odoo_live.py:323) is not modelled,
  and neither are the helpers' `st.error` messages shown before it: the
  failed task search (line 100), shown before the "no tasks" failure,
  and the failed sub-task read (line 120), after which the report is
  still produced.
- Reports.RecapReportMeaning models only the final outcome. The
  helpers' `st.error` messages are not modelled: the failed favourites
  fetch (line 78), the failed recap search (line 214) and the failed
  employee search (line 274), which can appear in the same run as the
  report or the failure message.
- `ast.literal_eval` is a parameter `literal`. Only its outcome matters
  to the program: a domain, or a failure that gives `[]`. A literal that
  parses to something other than a list of conditions is not modelled.
- The full-day bounds (tasks_odoo_live.py:294-297) are built by appending
  ` 00:00:00` and ` 23:59:59` to day strings. The date picker and
  `strftime` are not modelled; a day is its `%Y-%m-%d` text.
- Reports.DayWindow and Reports.RecapQueryMeaning compare timestamps as
  text, where the server compares datetimes. In the fixed-width
  `%Y-%m-%d %H:%M:%S` format the two orders agree.
- `Values.Repr` is left out in part. It prints strings inside lists in
  single quotes without Python's escaping, and does not print floats,
  since floats are not in the value type.
- Python treats `False == 0` and `True == 1` as the same dictionary key.
  This is not modelled. Designer and creator keys are labels, and
  sub-task ids are integers.
- Fetch.UniqueIds does not promise an order for `list(set(ids))`, because
  Python does not promise one. The method keeps first occurrences, but
  the contract says only that it returns the same ids without repeats.
- Reports.MorningReport states the sub-task map only through its key
  property. How the map is built is the contract of
  `Fetch.FetchSubtaskDetails`, which the method calls.
- Favorites.Named is required: every favourite must have a `name`. The
  code indexes `x["name"]` and would stop on a favourite without one.
- Favorites.FavoriteWithoutDomainIgnored assumes the literal parser reads
  `"[]"` as the empty list, because that parser is a parameter here.
- Only the domain shapes this program builds are given a meaning:
  `'|'`, `'&'`, `'!'` and leaves, with leaves judged by an oracle.
  Odoo's operators on leaves are not modelled.

## Findings

| source | as written | input that shows it | evidently intended | confidence | as-written member | corrected member |
|---|---|---|---|---|---|---|
| tasks_odoo_live.py:44-50 | Each further favourite is ORed as `['\|'] + combined + d`. A favourite domain with more than one top-level term (implicitly ANDed) is spliced in unchanged, so `'\|'` takes only its first term and the remaining terms are ANDed with the whole query | favourites `[A, B]` and `[C]`: the result `['\|', A, B, C]` means `(A or B) and C`, so a record matching only `C` is not selected | a record is selected when it matches any selected favourite (each domain normalised to one term before the OR) | not executed | DomainEval.CombineMisgroupsImplicitAnd | DomainEval.CombineNormalizedIsOr |

`Reports.MorningQuery` and `Reports.MorningReport` build the query as
the code does, with `Domains.CombineDomainsOr`. The corrected query,
`Reports.CorrectedMorningQuery`, uses
`DomainEval.CombineDomainsOrNormalized` instead. With favourites of at
most one top-level term each, the two select the same slots
(`Reports.SingleFavouritesAreOr`, `DomainEval.CombineNormalizedIsOr`).
