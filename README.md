# Pre-flight planning and reporting of the `opensearch document` command

This project models the core of the `opensearch` Django management command of
django-opensearch-dsl (`django_opensearch_dsl/management/commands/opensearch.py`).
It covers what the `document` sub-command does around its collaborators:

- it parses `--filters`/`--excludes` tokens (`lookup=value`);
- it folds each filter list into one AND predicate;
- it validates `--objects` against the registered models and `--indices` against the known indices;
- it narrows the indices and refuses any that does not exist;
- it picks the document classes to process and builds one kwargs record per target;
- it adds the `--missing` exclude where it applies;
- it counts every target for the pre-run summary;
- it asks for confirmation;
- it submits every target and reports successes and errors, with errors grouped by reason at verbosity 1.

The model also covers the grouping done by the `list` sub-command.

The collaborators are plain data or function parameters:

- The registry is a `Registry` value: indices in iteration order, model names, and document classes per index.
- The search engine's answers are fields of each `IndexRec`: `exists()`, the stored ids, the document count.
- The value coercion `parse` of `types.py` is a parameter `string -> Option<V>`.
- `get_queryset(...).count()` is a parameter that returns a count or a `FieldError` message.
- `document.update(...)` is a parameter that returns `(success, errors)`.
- Terminal I/O becomes values. The prompt answers are an input sequence. What the command writes and how it exits form an `Outcome`:
  - `Aborted` means exit status 1 before the summary;
  - `Declined` means exit 1 at the prompt;
  - `NoInput` means `input()` found no more input;
  - `Completed` means the run finished.

Every loop of the source that computes a value is a method whose invariants
prove it equal to a specification function. The properties are proved about
those functions:

- what each step accepts and rejects;
- the order of the checks;
- that nothing is submitted unless every check and every count passed and the run was confirmed;
- the order of the selections (registry order for narrowed indices, selected document classes and missing-index names) and, for narrowed indices, their multiplicity;
- that grouped error counts add up.

Modules: `Wrappers`, `Text` (Python `lower`/`split`/`join`), `Seqs`
(insertion-ordered counting), `Filters`, `Domain` (the records), `Resolve`
(target resolution), `Planning`, `Reporting`, `Command`.

Three behaviours of the code shape the model:

- A filter token is split on every `=` and must give exactly two pieces (line 37). So a token with two `=` is rejected; it is not split at the first one.
- Object names are validated case-insensitively (line 99). But line 131 compares the lower-cased model names with the names as typed (line 100). So only object names typed in lower case select a model. `Resolve.OnlyLowercaseObjectsSelect` proves that names which each hold an upper-case letter select nothing.
- The first `FieldError` while counting stops the command at once (lines 150-152, 167-170). Errors of later targets are not collected.

## Model

| member | source | states |
|---|---|---|
| `Text.JoinSplit` | django_opensearch_dsl/management/commands/opensearch.py:37 | joining the pieces of `s.split(sep)` with `sep` gives `s` back |
| `Text.SplitJoin` | django_opensearch_dsl/management/commands/opensearch.py:37 | splitting a join of separator-free pieces gives the pieces back |
| `Text.LowerIsLower` | django_opensearch_dsl/management/commands/opensearch.py:96-99 | `lower()` yields a lower-case string and fixes exactly the lower-case strings |
| `Filters.ParseFilter` | django_opensearch_dsl/management/commands/opensearch.py:35-46 | a token without exactly one `=` is rejected; an accepted token is `lookup=raw` with no `=` in either side and `parse(raw)` giving the value; a rejection reports the token |
| `Filters.ParseFilterAccepts` | django_opensearch_dsl/management/commands/opensearch.py:35-46 | `lookup=raw` with no other `=` yields `(lookup, v)` iff `parse(raw)` gives `v`, and is rejected iff `parse` fails |
| `Filters.FirstRejected` | django_opensearch_dsl/management/commands/opensearch.py:325-353 | index of the first token the filter converter rejects; all before it are accepted |
| `Filters.ParseFilters` | django_opensearch_dsl/management/commands/opensearch.py:325-353 | a filter list is accepted iff every token is, each entry being that token's pair; otherwise the first rejected token stops the command |
| `Filters.Conjunction` | django_opensearch_dsl/management/commands/opensearch.py:91-92 | there is no predicate iff no filter was given |
| `Filters.ConjunctionLeaves` | django_opensearch_dsl/management/commands/opensearch.py:91-92 | the left fold with AND holds every `lookup=value` exactly once, in the order given |
| `Filters.ConjunctionHolds` | django_opensearch_dsl/management/commands/opensearch.py:91-92 | a record satisfies the folded predicate iff it meets every filter |
| `Filters.ConjunctionOrderIndependent` | django_opensearch_dsl/management/commands/opensearch.py:91-92 | reordering the filters does not change which records the predicate admits |
| `Filters.WithMissing` | django_opensearch_dsl/management/commands/opensearch.py:161 | the augmented exclude is the old exclude's lookups (if any) followed by `pk__in` the stored ids |
| `Filters.WithMissingHolds` | django_opensearch_dsl/management/commands/opensearch.py:159-161 | the augmented exclude holds iff the old exclude holds (or there was none) and the record's key is already indexed |
| `Resolve.LowerAll` | django_opensearch_dsl/management/commands/opensearch.py:96 | one choice per registered model, in order; a string is a choice iff it is some model name lower-cased, and every choice is lower-case |
| `Resolve.FirstUnknownObject` | django_opensearch_dsl/management/commands/opensearch.py:97-103 | every object name before the returned position is known, and the one at it is not |
| `Resolve.ValidateObjects` | django_opensearch_dsl/management/commands/opensearch.py:95-103 | succeeds iff every object name matches a model name case-insensitively, then keeps the names as typed; otherwise stops at the first unknown name with the lower-cased choices |
| `Resolve.UnknownIndexNames` | django_opensearch_dsl/management/commands/opensearch.py:108-109 | a name is unknown iff it was requested and no known index carries it; the set is empty iff every requested name belongs to a known index |
| `Resolve.SelectIndices` | django_opensearch_dsl/management/commands/opensearch.py:106-117 | with no index names given, all known indices; otherwise exactly the known indices whose name was requested, none more often than in the registry |
| `Resolve.SelectIndicesNarrows` | django_opensearch_dsl/management/commands/opensearch.py:113-117 | with index names given, the selection is `KeepRequested` of the registry: a known index occurs exactly as often as in the registry if its name was requested and not at all otherwise, in registry order |
| `Resolve.KeepRequested` | django_opensearch_dsl/management/commands/opensearch.py:115 | an index is kept iff it is known and its name was requested |
| `Resolve.KeepRequestedCount` | django_opensearch_dsl/management/commands/opensearch.py:115 | a kept index occurs as often as in the registry, however often its name was requested |
| `Resolve.KeepRequestedAppend` | django_opensearch_dsl/management/commands/opensearch.py:115 | narrowing commutes with concatenation, so registry order is kept |
| `Resolve.NotCreatedNames` | django_opensearch_dsl/management/commands/opensearch.py:120 | empty iff every selected index exists; holds exactly the names of the selected indices that do not exist, and no more names than indices |
| `Resolve.NotCreatedNamesAppend` | django_opensearch_dsl/management/commands/opensearch.py:120 | listing the missing names commutes with concatenation, so they come in selection order; with the length bound of `NotCreatedNames`, a single index gives its name or nothing, hence one name per missing index |
| `Resolve.ChosenModels` | django_opensearch_dsl/management/commands/opensearch.py:131 | a registered model is chosen iff its lower-cased name equals an object name as typed |
| `Resolve.OnlyLowercaseObjectsSelect` | django_opensearch_dsl/management/commands/opensearch.py:99-131 | object names that each hold an upper-case letter choose no model |
| `Resolve.Flatten` | django_opensearch_dsl/management/commands/opensearch.py:134-138 | a document class is listed iff it belongs to some index of the raw registry |
| `Resolve.CollectMappings` | django_opensearch_dsl/management/commands/opensearch.py:134-138 | the nested loop collects exactly the flattened document classes, index by index |
| `Resolve.SelectedMappings` | django_opensearch_dsl/management/commands/opensearch.py:140-142 | a document class is selected iff it is registered, its model was chosen and its index selected |
| `Resolve.SelectedMappingsAppend` | django_opensearch_dsl/management/commands/opensearch.py:140-142 | selecting document classes commutes with concatenation, so the selection keeps registry order |
| `Resolve.SelectMappings` | django_opensearch_dsl/management/commands/opensearch.py:140-142 | the loop keeps exactly the selected document classes, in registry order |
| `Planning.MissingExclude` | django_opensearch_dsl/management/commands/opensearch.py:158-161 | the exclude is unchanged unless `--missing` is set and the action is INDEX; then it is the old exclude's lookups (if any) followed by `pk__in` the stored ids |
| `Planning.ObjectTargets` | django_opensearch_dsl/management/commands/opensearch.py:146-148 | one kwargs record per selected document class |
| `Planning.IndexTargets` | django_opensearch_dsl/management/commands/opensearch.py:156-165 | one kwargs record per selected index |
| `Planning.FirstFieldError` | django_opensearch_dsl/management/commands/opensearch.py:146-170 | every target before the returned position counts without error, and the one at it raises a `FieldError` |
| `Planning.PlanObjects` | django_opensearch_dsl/management/commands/opensearch.py:145-154 | the objects-branch loop yields the targets and their counted summary lines, or stops at the first `FieldError`, naming the model |
| `Planning.PlanIndices` | django_opensearch_dsl/management/commands/opensearch.py:156-172 | the index-branch loop does the same per index, with the `--missing` exclude, naming model and index on a `FieldError` |
| `Planning.PlanRun` | django_opensearch_dsl/management/commands/opensearch.py:89-172 | a plan is produced only when every object name is known, every requested index name is known and every selected index exists; its targets are those of the branch taken, with one summary line each |
| `Planning.ValidRunPlans` | django_opensearch_dsl/management/commands/opensearch.py:96-172 | conversely, a run that passes all three checks goes on to count its targets, so its outcome is decided by the counts alone |
| `Planning.PlanForOk` | django_opensearch_dsl/management/commands/opensearch.py:146-172 | counting gives a plan iff every target counts without a `FieldError`; otherwise the first failing target's model (and index) is named |
| `Planning.UnknownObjectAborts` | django_opensearch_dsl/management/commands/opensearch.py:96-103 | the first unknown object name stops the run, whatever the indices, filters and counts |
| `Planning.UnknownIndicesAbort` | django_opensearch_dsl/management/commands/opensearch.py:106-112 | with all objects known, any unknown requested index name stops the run, which names every unknown one |
| `Planning.NotCreatedAborts` | django_opensearch_dsl/management/commands/opensearch.py:119-124 | with valid names, a selected index that does not exist stops the run, listing the missing names in selection order, before any count |
| `Planning.PlanSummary` | django_opensearch_dsl/management/commands/opensearch.py:146-172 | a plan has one summary line per target, carrying that target's count and model |
| `Planning.ObjectsBranchTargets` | django_opensearch_dsl/management/commands/opensearch.py:130-149 | with objects, the targets pair one-to-one with the selected document classes, which are exactly those with a chosen model in a selected index; the kwargs never carry `--missing` |
| `Planning.IndexBranchTargets` | django_opensearch_dsl/management/commands/opensearch.py:155-165 | without objects, one target per selected index in order; its exclude gains `pk__in` the stored ids iff `--missing` is set and the action is INDEX |
| `Reporting.AnswerFrom` | django_opensearch_dsl/management/commands/opensearch.py:180-186 | the prompt proceeds at the first yes/y and declines at the first no/n (case-insensitive); every earlier answer was neither; it runs out of input only if no answer is either |
| `Reporting.Confirm` | django_opensearch_dsl/management/commands/opensearch.py:179-186 | with `force` nothing is asked and the run proceeds |
| `Reporting.Prompt` | django_opensearch_dsl/management/commands/opensearch.py:180-186 | the prompt loop reaches the decision `AnswerFrom` specifies |
| `Reporting.ReasonOf` | django_opensearch_dsl/management/commands/opensearch.py:212 | an error's reason is its `result` under the action key whenever both are present, and "unknown error" whenever that key or `result` is missing |
| `Reporting.TallyReasons` | django_opensearch_dsl/management/commands/opensearch.py:210-213 | the counter loop yields the reasons in order of first occurrence and each reason's number of errors |
| `Reporting.GroupedCountsAddUp` | django_opensearch_dsl/management/commands/opensearch.py:210-215 | each reason is listed once, and the grouped counts sum to the number of errors |
| `Reporting.Submit` | django_opensearch_dsl/management/commands/opensearch.py:191-218 | one target's report: model, successes, error count, and the errors grouped at verbosity 1, listed in full above 1, silent at 0 |
| `Reporting.Execute` | django_opensearch_dsl/management/commands/opensearch.py:188-249 | every target is submitted once, in order, with one report per target |
| `Reporting.ReportCountsAddUp` | django_opensearch_dsl/management/commands/opensearch.py:208-215 | at verbosity 1 a report lists distinct reasons whose counts add up to its error count |
| `Seqs.Dedup` | django_opensearch_dsl/management/commands/opensearch.py:214 | the reasons listed are distinct and exactly those that occur |
| `Seqs.DedupPrefix` | django_opensearch_dsl/management/commands/opensearch.py:214 | the reasons seen in a prefix come first, in the same order (first-occurrence order) |
| `Seqs.Tally` | django_opensearch_dsl/management/commands/opensearch.py:210-213 | the counter has a key iff it occurs, and its value is the number of occurrences |
| `Seqs.TallyTotal` | django_opensearch_dsl/management/commands/opensearch.py:210-215 | the counts summed over the listed reasons equal the number of errors |
| `Command.Preflight` | django_opensearch_dsl/management/commands/opensearch.py:89-172 | the pre-flight code reaches exactly the plan or stop the checks specify, in the source's order |
| `Command.ManageDocument` | django_opensearch_dsl/management/commands/opensearch.py:70-252 | a run stops with the first failed check; otherwise it shows the summary iff `verbosity or not force`, then declines, runs out of input, or submits exactly the planned targets and reports them; nothing is submitted on any other path |
| `Command.SummaryShown` | django_opensearch_dsl/management/commands/opensearch.py:175 | once checks and counts pass, the outcome carries the summary iff the verbosity is not 0 or `force` was not given |
| `Command.AbortBeforeWrite` | django_opensearch_dsl/management/commands/opensearch.py:94-172 | a run whose validation or counting fails ends aborted, before the summary, the prompt and any update |
| `Command.CompletedOnlyAfterYes` | django_opensearch_dsl/management/commands/opensearch.py:179-186 | without `force`, a completed run had a yes/y answer that no no/n answer preceded |
| `Command.AppLabel` | django_opensearch_dsl/management/commands/opensearch.py:55 | the application label exists iff the module path has a dot, and holds no dot |
| `Command.AppLabelIsSecondToLast` | django_opensearch_dsl/management/commands/opensearch.py:55 | the label is the second-to-last dot-separated component: the path is a prefix that is empty or ends in a dot, the label, a dot, and a last component without a dot |
| `Command.LineOfShows` | django_opensearch_dsl/management/commands/opensearch.py:57-59 | a listed line names its index, is ticked iff the index exists, and shows the document count exactly then |
| `Command.ListingOf` | django_opensearch_dsl/management/commands/opensearch.py:52-59 | the applications are distinct and exactly the keys of the grouped lines |
| `Command.ListingOkIff` | django_opensearch_dsl/management/commands/opensearch.py:55 | the listing fails iff some index's module path has no dot |
| `Command.ListingGroups` | django_opensearch_dsl/management/commands/opensearch.py:53-62 | each application's group holds exactly the lines of its indices, in registry order, and is non-empty |
| `Command.ListingCovers` | django_opensearch_dsl/management/commands/opensearch.py:53-59 | every index of a successful listing is grouped under its application |
| `Command.ListingApps` | django_opensearch_dsl/management/commands/opensearch.py:53-62 | the applications come in the order their first index appears in the registry, which is the order they are printed in |
| `Command.ListIndices` | django_opensearch_dsl/management/commands/opensearch.py:50-62 | the grouping loop builds the listing `ListingOf` specifies |

## Left out

- Batching, parallel submission, refresh and windowing (`get_indexing_queryset`, `document.update`, lines 192-202 and 223-233): they live in files that are not part of this model. `update` is a parameter returning `(success, errors)`. `batch_size`, `batch_type`, `parallel`, `refresh` and the output stream are only passed through, so they are not modelled.
- `_manage_index` and `utils.manage_index` (index create/delete/rebuild/update): `utils.py` is not part of this model.
- `parse` (`types.py`) is not part of this model. It is a parameter that may fail, standing for the ValueError that rejects a token.
- Django `Q` and ORM semantics: a lookup's meaning is an abstract `matches` relation, and the queryset count and its `FieldError` are an abstract counter. The model does not capture how `filter(...).exclude(...)` is evaluated.
- Network calls (`exists()`, `search().count()`, the id `scan()`): they are fields of each index record, read once.
- `add_arguments` and `handle` (argparse wiring and the "no subcommand" exit). Only the `type=` converter of `--filters`/`--excludes` is modelled (`ParseFilters`).
- Text rendering:
  - The summary string `s`, the result string, colouring, and `action.past` (defined in `enums.py`, not part of this model) are not modelled as text.
  - The summary and the reports are structured values with the same content.
  - The `list` lines keep the document count as a number rather than a rendered string.
- `str.lower()` is modelled on ASCII letters only. Non-ASCII case mapping is not captured.
- The order of the unknown index names in the message (`list(set(...))`) is unspecified in Python. It is modelled as a set.
- Document classes and models are compared by name: `os_model.django.model in django_models` (line 141) compares model classes.
- An error entry's `result` is modelled as a string.
- The action key of an error entry is the action's value (`"index"`, `"update"`, `"delete"`). Whether `e.get(action)` matches it depends on `OpensearchAction` in `enums.py`, which is not part of this model.
- `input()` at end of input raises EOFError. It is modelled as the outcome `NoInput`.
