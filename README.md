# xccdf2json in Dafny

A model of the XCCDF-to-JSON converter of xmlutils (`xmlutils/xccdf2json.py`):
`get_json`, which walks the start/end events of an OpenSCAP XCCDF 1.2 result
document once and builds a benchmark mapping with its `profiles`, `results`
and `rules` collections, and `_convert2dict`, which copies an element's
attributes into a dictionary.

The parser is abstracted as a finite sequence of events. `Start(e)` carries
the element it opens as data:
- its tag (`Tag`: one constructor per tag constant of `Tags`, one per name the code builds inline as `Tags.Domain + '…'` (`select`, `target`, `identity`, `profile`, `title`, `description`, `rationale`), and `Other` for any other name);
- its attribute list in document order;
- the default namespace in scope at the element (`nsmap[None]`);
- its own text;
- the concatenation of all its descendant text;
- its direct children.

`End(t)` carries the tag it closes. The one iterator that the dispatch loop
and both sub-scans share is the position `cursor` in that sequence.

The project has three files:

- `xccdf.dfy` (module `Xccdf`): the behaviour as functions.
  - `Step` is one turn of the dispatch loop. It returns `Continue` with the new
    state and position, or `Halt` where the Python code leaves the loop: the
    iterator's `StopIteration`, a failed `assert`, a missing key, or a `find`
    that returned `None`.
  - `Run` repeats `Step` until it halts.
  - `Attach` is the `finally` block, and `GetJson` is the whole function.
- `converter.dfy` (module `Converter`): the class `Xccdf2Json`, written
  imperatively like the source.
  - A `cursor` field advances through `context`.
  - The outer loop is `DispatchAll`, one pass of its body is `Turn`, and the
    per-tag branches are `Dispatch`.
  - The two consume-until-close loops are `SkipRule` and `ScanRuleResult`.
  - `GetJson` runs the loop and then the `finally` assignments.
  - Each method is proved against the functions of `Xccdf`.
- `properties.dfy` (module `Properties`): what the loop guarantees about the
  returned document, proved over `Step` and `Run`.

## Model

| member | source | states |
|---|---|---|
| Xccdf.Convert2DictKeys | xmlutils/xccdf2json.py:147-148 | the dictionary's keys are exactly the attribute names |
| Xccdf.Convert2DictLastWins | xmlutils/xccdf2json.py:147-148 | a name is bound to the value of the last attribute carrying it |
| Xccdf.Convert2DictEntries | xmlutils/xccdf2json.py:147-148 | every entry of the dictionary is one of the attributes (no invented pairs) |
| Xccdf.Convert2DictJson | xmlutils/xccdf2json.py:147-148 | copying the attributes and then making each value a JSON string is the same as the other order |
| Xccdf.AttribJsonEntries | xmlutils/xccdf2json.py:102-103 | the attribute dictionary of an element has exactly its attribute names, each bound to its value |
| Xccdf.FindFirst | xmlutils/xccdf2json.py:73-75 | `find` returns the first child with the tag, and returns nothing exactly when no child has it |
| Xccdf.RuleEndFirst | xmlutils/xccdf2json.py:85-88 | the Rule sub-scan stops just after the first end event tagged Rule, and runs out exactly when there is none |
| Xccdf.ResultScanFirst | xmlutils/xccdf2json.py:104-107 | the rule-result sub-scan stops just after the first end event tagged rule-result, and runs out exactly when there is none |
| Xccdf.AttachFields | xmlutils/xccdf2json.py:120-124 | the returned mapping has the benchmark's keys plus `profiles`, `results` and `rules`, bound to the collections one object per record in order; every other key keeps its value |
| Converter.Xccdf2Json.constructor | xmlutils/xccdf2json.py:39-52 | the converter starts at the first event of the document and keeps the output name and encoding |
| Converter.Xccdf2Json.GetJson | xmlutils/xccdf2json.py:54-124 | the method returns the `finally` attachment of whatever state the dispatch loop stopped in, and leaves the iterator where the loop stopped |
| Converter.Xccdf2Json.DispatchAll | xmlutils/xccdf2json.py:59-113 | the loop's final benchmark, profiles, rules and results and the iterator position are those where `Run` halts |
| Converter.Xccdf2Json.Turn | xmlutils/xccdf2json.py:65-67 | one pass either stops the loop (iterator exhausted or a branch raised) or advances the iterator with `Run` unchanged from there |
| Converter.Xccdf2Json.Dispatch | xmlutils/xccdf2json.py:67-113 | the tag branches for a start event do what `Step` does, including where they raise and what state they leave behind |
| Converter.Xccdf2Json.SkipRule | xmlutils/xccdf2json.py:85-88 | the Rule sub-scan closes exactly when `RuleEnd` finds the end event, and leaves the iterator just after it (or at the end) |
| Converter.Xccdf2Json.ScanRuleResult | xmlutils/xccdf2json.py:104-112 | the rule-result sub-scan closes exactly when `ResultScan` does, with its position and record |
| Properties.StepRules | xmlutils/xccdf2json.py:84-96 | one turn appends to `rules` exactly the record of a Rule start whose sub-scan closes and whose fields are found, and changes `rules` in no other way |
| Properties.StepResults | xmlutils/xccdf2json.py:99-113 | one turn appends to `results` exactly the record of a completed rule-result, and changes `results` in no other way |
| Properties.StepProfiles | xmlutils/xccdf2json.py:77-83 | a Profile with an `id` binds (or rebinds) that id to its selections; nothing else changes `profiles` |
| Properties.StepOthers | xmlutils/xccdf2json.py:67-113 | only TestResult and score starts change the benchmark; end events and unrecognised starts move on one event and change nothing |
| Properties.RuleStepSkipsBody | xmlutils/xccdf2json.py:84-96 | a completed Rule resumes the loop just after its end event, skipping everything in between; one whose sub-scan closes but whose `id`, `severity`, title, description or rationale is missing stops the loop just after its end event with the state unchanged; a truncated one stops at the end of the stream with the state unchanged |
| Properties.RuleRecordDefined | xmlutils/xccdf2json.py:89-95 | a Rule record exists exactly when `id`, `severity` and the title, description and rationale children are present |
| Properties.RuleRecordFields | xmlutils/xccdf2json.py:89-95 | a Rule record has exactly the five keys, taken from the attributes, the title text and the descendant text of description and rationale |
| Properties.TestResultReplacesBenchmark | xmlutils/xccdf2json.py:70-75 | a TestResult start replaces the whole benchmark mapping (an earlier `score` is lost), keeps the collections, and the loop goes on exactly when every lookup succeeded |
| Properties.InitBenchmarkCompletes | xmlutils/xccdf2json.py:71-75 | the TestResult lookups all succeed exactly when `id`, target, identity, profile and its `idref` are present; without `id` the mapping holds all the attributes |
| Properties.InitBenchmarkFields | xmlutils/xccdf2json.py:71-75 | a complete TestResult mapping is the attributes without `id` plus `hostname`, `user` and `profile` from the three children |
| Properties.ScoreSetsScore | xmlutils/xccdf2json.py:97-98 | a score start sets `score` to its text and keeps every other key |
| Properties.BenchmarkNamespace | xmlutils/xccdf2json.py:68-69 | a Benchmark start passes exactly when its default namespace is the XCCDF 1.2 URI, and otherwise stops the loop |
| Properties.SelectionsInChildOrder | xmlutils/xccdf2json.py:78-83 | a Profile's selections have one attribute map per `select` child, in child order |
| Properties.ResultScanLastWins | xmlutils/xccdf2json.py:104-112 | the stored rule-result record is its starting record with `result` and `ident` bound to the last such texts before the closing end event |
| Properties.WithLastSeenKeys | xmlutils/xccdf2json.py:102-112 | a rule-result record keeps its attribute keys and gains `result`/`ident` only when such a start was seen |
| Properties.RunKeepsCollected | xmlutils/xccdf2json.py:65-113 | records already collected are never changed: `rules` and `results` only grow at the end, and profile ids are never removed |
| Properties.RulesInDocumentOrder | xmlutils/xccdf2json.py:84-96 | the rules appended by the loop are, one for one, the records of completed Rule starts at strictly increasing positions |
| Properties.ResultsInDocumentOrder | xmlutils/xccdf2json.py:99-113 | the results appended by the loop are, one for one, the records of completed rule-results at strictly increasing positions |
| Properties.StepKeepsWellFormed | xmlutils/xccdf2json.py:89-113 | one turn keeps every rule record at the five keys and every result record free of `time` |
| Properties.RunKeepsWellFormed | xmlutils/xccdf2json.py:65-113 | the whole loop keeps that invariant |
| Properties.DocumentShape | xmlutils/xccdf2json.py:114-124 | whatever the events, the document has `profiles`, `results` and `rules`; no result object has `time`; every rule object has exactly the five keys |
| Properties.TruncatedScanStops | xmlutils/xccdf2json.py:84-114 | a stream that ends inside a Rule or rule-result stops the loop there, and the unfinished record is not appended |
| Properties.FailureStopsWithCollections | xmlutils/xccdf2json.py:69-124 | each of these stops the loop after the offending event, with the collections built so far kept: a bad namespace, a missing `id`, a missing TestResult child, a missing `time` |

## Left out

- `convert` (`xmlutils/xccdf2json.py:126-145`) is not part of this model. It is JSON serialisation and writing a file through `json` and `codecs`. The model stops at the `Json` value that `get_json` returns.
- The lxml `iterparse` parser is replaced by the event sequence `context`, given to the constructor. In the model, each start event carries its complete element: children, text and descendant text. lxml may have parsed only part of an element's subtree when its start event is delivered. Which children `find` and the Profile iteration see at that moment is therefore not modelled. The Rule branch reads its element only after its end event, and there the two agree.
- `itertext()` is the opaque string `allText` on each element. How lxml concatenates text nodes is not modelled.
- The `print` and `traceback` diagnostics of the exception handlers are left out. Both handlers become the same `Halt`, and the model does not distinguish `StopIteration` from the other exceptions.
- Python's `assert` is taken to be enabled. When run with `-O`, a wrong namespace would not stop the loop.
- Exceptions other than the ones the branches can raise on their input (memory errors, interrupts, parser errors on malformed XML) are not modelled.
- The model follows the code. A Rule without a title, description or rationale child raises and the loop stops just after its end event; it does not get empty strings. On any error the partial document is still returned, because `finally` returns it.
- Properties.RulesInDocumentOrder: states that every appended rule comes from a completed Rule start, in order, one for one. That every completed Rule start the loop reaches is appended follows from Properties.StepRules, which is stated per turn rather than over the whole run.
- Properties.ResultsInDocumentOrder: the same holds for rule-results, with Properties.StepResults as the per-turn converse.
