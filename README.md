# cm-download task filters and Segments.AI reconciler, in Dafny

This project models the decision logic of three scripts of the cloud-mask
download tooling:

- `bin/parse_filter.py` derives a date and a tile index from a data directory's
  name. It then keeps the CVAT task records (`id,name,status`) whose name carries
  that index and date and whose status is `completed`. For each kept record it
  computes its task id and the path where the record's annotation archive is saved.
  Finally it writes the kept records to a text file.
- `bin/parse_unlabelled.py` keeps the records whose status is `annotation` and
  writes them out the same way.
- `bin/segmentsai_download.py` matches the tiles found on disk with the samples
  of a Segments.AI dataset by name and fetches each sample's labels. It keeps the
  LABELED and REVIEWED labels. For each of those it either skips the label (the
  tile's mask is recent enough) or downloads its bitmap and writes a class legend.
  Writing the legend resolves category names into the label's own annotations,
  in place.

Modules:

- `PyStr` (`strings.dfy`): the Python `str.split`, `str.join` and `str.rsplit`
  operations the scripts use, for a one-character separator.
- `Seqs` (`seqs.dfy`): order-preserving filter and map.
- `Common` (`common.dfy`): `Option`, `Result` and the Python exceptions that can
  escape (`IndexError`, `KeyError`, `NameError`).
- `TaskFile` (`task_file.dfy`): the output-file writer. Both filter scripts use
  the same loop; the file contents are returned as a string.
- `ParseFilter` (`parse_filter.dfy`) and `ParseUnlabelled` (`parse_unlabelled.dfy`):
  the two task filters.
- `SegmentsAI` (`segmentsai.dfy`): the label, labelset and sample filters; the
  class legend with its category-name resolution; the staleness test.
  - An annotation is a class, because the legend step updates it in place.
  - A label holds references to its annotations, so the legend's `label_map` is
    the label's own list.
- `Reconcile` (`reconcile.dfy`): the tile × sample × label loop.
  - It returns a log of events (fetch, skip, download with its outcome, legend
    written) and whether an error ended the run.
  - It changes the category names of the annotations it resolves and nothing else.
  - The plan functions (`LabelsRun`, `SamplesRun`, `TilesRun`, `Plan`) state the
    log the loop must produce. The lemmas about `Plan` state what the loop promises.

Timestamps are integers. The service and the network are parameters of the loop:
`getLabel(sampleUuid, labelsetName)` answers one label request, and
`downloadOk(url, path)` says whether a bitmap download succeeds.

In four places the code does something other than what one might expect of
it. The model follows the code:

- One might expect the folder of a task named `tile_5_20210101` to be that whole
  name. `get_tile_folder` gives `5_20210101`: `rsplit('_', 3)` of a name with
  two underscores gives three pieces, and the first is dropped (`ParseFilter.TileFolderTwoUnderscores`).
  - So a completed task named `tile_5_20210101` is saved under
    `<directory>/5_20210101/annotations.zip`.
  - Only names with at least three underscores give their last three tokens.
- One might expect only the first sample with the tile's name to be used. The
  sample loop has no `break`, so every sample whose name equals the tile's is
  processed, duplicates included (`Reconcile.PlanFetches`).
- One might expect each annotation to be named from whichever selected labelset
  has its category id. The legend takes its categories from the first labelset
  whose name is configured, whatever category ids it contains. An annotation
  whose id that labelset lacks stays without a name, even when a later labelset
  has the id.
- One might expect `filter_labels` with a single status to keep the labels with
  that status. It returns an empty list whenever `status` is not a list.

## Model

| member | source | states |
|---|---|---|
| PyStr.Split | bin/parse_filter.py:46 | `s.split(c)` has at least one piece, and no piece contains `c`; a text without `c` is its own single piece |
| PyStr.SplitCount | bin/parse_filter.py:46 | there is one more piece than there are separators |
| PyStr.SplitAround | bin/parse_filter.py:21 | a separator splits a text into the pieces on its two sides |
| PyStr.JoinSplit | bin/parse_filter.py:31 | joining the pieces of a split gives the text back |
| PyStr.SplitJoin | bin/parse_filter.py:31 | splitting a join of separator-free pieces gives the pieces back |
| PyStr.Join | bin/parse_filter.py:31 | `c.join(parts)`: the pieces in order with one `c` between neighbours, `""` for no pieces |
| PyStr.LastIndex | bin/parse_filter.py:13 | the position of the last `c`, or -1; no `c` follows it |
| PyStr.RSplit | bin/parse_filter.py:30 | `s.rsplit(c, n)` has between 1 and n+1 pieces and joins back to `s`; only the first piece may contain `c`, and only when all n splits were made |
| PyStr.RSplitTokens | bin/parse_filter.py:30 | `rsplit(c, n)` equals `split(c)` with all but the last n tokens joined back together |
| PyStr.AfterLast | bin/parse_filter.py:13-14 | `rsplit(c, 1)[-1]` is a `c`-free suffix of `s`, preceded by a `c` when `s` has one, and all of `s` when it has none |
| PyStr.BeforeLast | bin/parse_filter.py:13-15 | `rsplit(c, 1)[0]` is `s` without `c`; otherwise `s` is it, then `c`, then `rsplit(c, 1)[-1]` |
| PyStr.LastPieces | bin/parse_filter.py:13-15 | `rsplit(c, 1)` of `a + c + b`, with `b` free of `c`, is exactly `a` and `b` |
| PyStr.AfterLastToken | bin/parse_filter.py:14 | `rsplit(c, 1)[-1]` is the last token of `split(c)` |
| PyStr.BeforeLastTokens | bin/parse_filter.py:15 | when `c` occurs, `rsplit(c, 1)[0]` splits into all tokens of `split(c)` but the last |
| PyStr.LastTwoTokens | bin/parse_filter.py:14-15 | `rsplit(c, 1)[-1]` is the last token and `rsplit(c, 1)[0].rsplit(c, 1)[-1]` the one before it, or the only token |
| TaskFile.WriteTaskList | bin/parse_filter.py:77-82 | the writer loop produces `Render(tasks)`: per record, each field then `,`, then a newline |
| TaskFile.SplitFieldsThen | bin/parse_filter.py:79-81 | splitting the written fields on `,` recovers them, followed by what comes after the last comma |
| TaskFile.LineSplit | bin/parse_unlabelled.py:52-56 | a written line of comma-free fields splits on `,` into those fields plus a last piece that is only the newline |
| TaskFile.SplitRenderThen | bin/parse_filter.py:77-82 | splitting the output on newlines gives one line per record, in order, then what follows |
| TaskFile.RenderLines | bin/parse_filter.py:77-82 | the file holds exactly one line per record, in the records' order, and ends with a newline |
| ParseFilter.Stem | bin/parse_filter.py:13 | the last path segment with its extension removed; it has no `/` |
| ParseFilter.GetIdentifiers | bin/parse_filter.py:11-16 | never fails; the date is the last `_`-token of the stem and the index the token before it (both the stem itself when it has no `_`); neither contains `_` |
| ParseFilter.StemIdentifiers | bin/parse_filter.py:14-15 | the two `rsplit('_', 1)` steps on the stem give its last `_`-token as the date and the one before it as the index |
| ParseFilter.IdentifiersRoundTrip | bin/parse_filter.py:13-16 | a directory `<prefix>/<x>_<index>_<date>[.ext]` yields exactly `(date, index)` |
| ParseFilter.StemRoundTrip | bin/parse_filter.py:13 | the stem of `<prefix>/<stem>[.ext]` is `stem` |
| ParseFilter.IdentifiersWithoutUnderscore | bin/parse_filter.py:14-15 | a stem without `_` is both the date and the index |
| ParseFilter.CheckMatchFile | bin/parse_filter.py:19-25 | true iff name token 1 is the index, token 2 the date and the status `completed`; IndexError iff the name has fewer than 2 tokens, or exactly 2 with token 1 equal to the index (short-circuit `and`) |
| ParseFilter.CheckMatchOfName | bin/parse_filter.py:21-22 | a completed task named `<p>_<index>_<date>...` matches |
| ParseFilter.GetTileFolder | bin/parse_filter.py:28-32 | the folder is the name's `_`-tokens after the first when there are at most four, else the last three, joined with `_` |
| ParseFilter.TileFolderLastThree | bin/parse_filter.py:30-31 | a name with at least three `_` gives its last three tokens |
| ParseFilter.TileFolderNoUnderscore | bin/parse_filter.py:30-31 | a name without `_` gives the empty folder |
| ParseFilter.TileFolderTwoUnderscores | bin/parse_filter.py:30-31 | `p_a_b` gives `a_b`: `tile_5_20210101` gives `5_20210101` |
| ParseFilter.GetTaskId | bin/parse_filter.py:35-37 | a record's task id is its first field |
| ParseFilter.SavePath | bin/parse_filter.py:51 | the archive of a matched record goes to `<directory>/<tile folder>/annotations.zip` |
| ParseFilter.CompletedIsFilter | bin/parse_filter.py:45-56 | the kept records are the comma-splits with 3 fields that match, in input order |
| ParseFilter.FailsWithinIff | bin/parse_filter.py:45-48 | the loop's prefix-wise failure test agrees with "some 3-field record raises" |
| ParseFilter.ParseFilterNames | bin/parse_filter.py:40-56 | IndexError iff some 3-field record raises in the match; otherwise the kept records, and aligned with them their ids (field 0) and save paths `directory/<folder>/annotations.zip` |
| ParseFilter.CompletedSelects | bin/parse_filter.py:46-48 | a record is kept iff it has 3 fields and matches |
| ParseFilter.CompletedAreMatches | bin/parse_filter.py:46-53 | every kept record is the comma-split of an input, with 3 fields, status `completed`, and the index and date as name tokens 1 and 2 |
| ParseFilter.CompletedConcat | bin/parse_filter.py:45-56 | the selection keeps input order: it distributes over concatenation |
| ParseFilter.DirectoryTaskAgree | bin/parse_filter.py:11-25 | a completed task named after the directory's index and date is matched with the identifiers taken from that directory |
| ParseUnlabelled.UnlabelledIsFilter | bin/parse_unlabelled.py:20-29 | the kept records are the comma-splits with 3 fields and status `annotation`, in input order |
| ParseUnlabelled.CheckStatus | bin/parse_unlabelled.py:12-17 | a record passes iff its field 2 is exactly `annotation` |
| ParseUnlabelled.ParseFilterUnlabelled | bin/parse_unlabelled.py:20-29 | the loop returns exactly those records, each with 3 fields and field 2 `annotation` |
| ParseUnlabelled.UnlabelledSelects | bin/parse_unlabelled.py:24-27 | an input is kept iff its split has 3 fields and status `annotation`; any other field count is dropped |
| ParseUnlabelled.UnlabelledFromInput | bin/parse_unlabelled.py:24-27 | every kept record has 3 fields, status `annotation`, and is the comma-split of some input |
| ParseUnlabelled.UnlabelledConcat | bin/parse_unlabelled.py:23-29 | the selection keeps input order |
| ParseUnlabelled.RefilterJoined | bin/parse_unlabelled.py:23-29 | re-joining kept records with `,` and filtering them again keeps them all |
| ParseUnlabelled.UnlabelledIdempotent | bin/parse_unlabelled.py:23-29 | filtering the re-joined output again gives the same list |
| ParseUnlabelled.WrittenLineRejected | bin/parse_unlabelled.py:51-56 | a written line splits on `,` into 4 fields, so the filter does not accept it back |
| SegmentsAI.FilterLabels | bin/segmentsai_download.py:195-205 | with a status list, the labels that have a status and whose status is listed, in order; with no list, nothing |
| SegmentsAI.WithStatusSelects | bin/segmentsai_download.py:199-203 | a label is kept iff it has a `label_status` and that status is listed |
| SegmentsAI.WithStatusConcat | bin/segmentsai_download.py:199-203 | the label filter keeps the original order |
| SegmentsAI.FilterByName | bin/segmentsai_download.py:211-220 | no names returns the input itself; a list keeps the records named in it; a single name keeps the records with that name; order is kept |
| SegmentsAI.FilterLabelsets | bin/segmentsai_download.py:207-220 | `filter_labelsets` is the name filter on labelset names |
| SegmentsAI.ByNameSelects | bin/segmentsai_download.py:214-218 | a record is kept iff its name passes the `names` argument |
| SegmentsAI.ByNameAll | bin/segmentsai_download.py:211-212 | no names keeps every record |
| SegmentsAI.ByNameHead | bin/segmentsai_download.py:243-246 | the first record kept is the first one whose name passes |
| SegmentsAI.LegendCategories | bin/segmentsai_download.py:243-246 | IndexError iff no labelset is selected; otherwise the categories of the first selected labelset |
| SegmentsAI.LastMatch | bin/segmentsai_download.py:256-258 | a name is found iff some category has the id, and it is the name of the last such category |
| SegmentsAI.ResolutionIdempotent | bin/segmentsai_download.py:255-258 | resolving a name twice is resolving it once |
| SegmentsAI.ResolveOne | bin/segmentsai_download.py:256-258 | an annotation keeps its id and category id; it gets the name of the last category with its id, or keeps its name when none has it |
| SegmentsAI.ResolveCategories | bin/segmentsai_download.py:255-258 | every annotation of the list is resolved that way, also when it occurs twice |
| SegmentsAI.SaveClassLegend | bin/segmentsai_download.py:241-258 | IndexError when no labelset is selected, KeyError when the label has no status, nothing changed on error; otherwise the legend `("0.0.1", uuid, status, label's own annotation list)` with the annotations resolved against the first selected labelset |
| SegmentsAI.FilterSamples | bin/segmentsai_download.py:222-235 | the name filter on sample names (corrected version) |
| SegmentsAI.FilterSamplesAsWrittenFails | bin/segmentsai_download.py:226 | as written, `filter_samples` raises NameError even when no names are given and the intended result is every sample |
| SegmentsAI.FilterSamplesAsWritten | bin/segmentsai_download.py:222-235 | `filter_samples` as written: a NameError on every input, since its first test reads the undefined `name` |
| SegmentsAI.UpToDate | bin/segmentsai_download.py:342 | a label is up to date iff the tile has a mask time and that time is not earlier than the label's update time |
| Reconcile.LabelsAbortStays | bin/segmentsai_download.py:340-352 | once the legend step has raised, later labels add nothing |
| Reconcile.SamplesAbortStays | bin/segmentsai_download.py:333-352 | once the legend step has raised, later samples add nothing |
| Reconcile.TilesAbortStays | bin/segmentsai_download.py:331-352 | once the legend step has raised, later tiles add nothing |
| Reconcile.Fetched | bin/segmentsai_download.py:183-193 | `get_labels` for one sample uuid: one label per labelset name, the answer of `getLabel` for that name, in the names' order |
| Reconcile.LabelStep | bin/segmentsai_download.py:340-352 | one label: nothing once the run has ended; a skip when up to date; otherwise a download with the outcome `downloadOk` gives for the mask path, then either the end of the run when the legend step raises before writing or the legend written to the classes file beside the tile; the write itself never fails |
| Reconcile.SampleStep | bin/segmentsai_download.py:334-338 | one (tile, sample) pair: nothing unless the names are equal and the run goes on; otherwise a fetch, then `LabelStep` for each fetched label with status LABELED or REVIEWED, in order |
| Reconcile.Plan | bin/segmentsai_download.py:331-352 | the whole loop from an empty log: every tile in order, each against every sample in order |
| Reconcile.SoundAppend | bin/segmentsai_download.py:340-352 | appending justified, complete download-and-legend blocks keeps a run sound |
| Reconcile.LabelStepSound | bin/segmentsai_download.py:342-352 | one label's step keeps a run sound |
| Reconcile.PlanSound | bin/segmentsai_download.py:331-352 | every event is justified; every download, failed or not, is followed at once by the legend of the same tile and label, and every legend comes right after its download; the legend step ends the run only when no labelset is selected (label requests and the legend write always succeed here) |
| Reconcile.StalenessDecision | bin/segmentsai_download.py:342-348 | a label is skipped, and nothing else happens to it, iff the tile has a mask time not earlier than the label's update (equal times skip); otherwise its download comes first |
| Reconcile.SkippedNeverDownloaded | bin/segmentsai_download.py:342-352 | a label skipped on a tile is never downloaded or given a legend there |
| Reconcile.LegendFileOfTile | bin/segmentsai_download.py:352 | every legend goes to `segments_ai_classes.json` beside its tile, so the legends of tiles in one directory all write the same file |
| Reconcile.LabelsRunFetches | bin/segmentsai_download.py:340-352 | processing labels fetches nothing |
| Reconcile.SamplesRunFetches | bin/segmentsai_download.py:333-338 | one tile fetches the labels of every sample of the same name, in the samples' order |
| Reconcile.PlanFetches | bin/segmentsai_download.py:331-338 | a run that is not ended early fetches exactly the name-equal (tile, sample) pairs, tile by tile, duplicates included (no `break`) |
| Reconcile.TouchedSnoc | bin/segmentsai_download.py:352 | an annotation is held by a written legend iff an earlier legend held it, or the new event is a legend holding it |
| Reconcile.FetchedOwned | bin/segmentsai_download.py:337-338 | the labels fetched for a sample hold only annotations the loop may update |
| Reconcile.ProcessLabel | bin/segmentsai_download.py:342-352 | one label on the real annotations: the new log is `LabelStep` of the old one, the annotations of a written legend are resolved in place against the selected categories and every other annotation keeps its name; ids and category ids never change |
| Reconcile.ProcessLabels | bin/segmentsai_download.py:340-352 | the label loop produces `LabelsRun`; every annotation written to a legend so far is resolved, and every other one is unchanged |
| Reconcile.ProcessTile | bin/segmentsai_download.py:333-352 | the sample loop of one tile produces `SamplesRun`, with the same invariant on the annotations |
| Reconcile.Reconcile | bin/segmentsai_download.py:331-352 | the whole loop produces `Plan`; annotations held by a written legend are resolved against the first selected labelset, and all other annotations are unchanged |

## Left out

- Logging (`LinuxLogColorFormatter`, `LogInfoFilter`, `Loggable`, `init_logging`),
  including the `print` of a label without a status in `filter_labels`. These only
  produce output.
- Command-line parsing in all three scripts. In `parse_filter.py` the global
  `args.directory` read by `parse_filter_names` is the parameter `directory`.
- The remaining calls of `parse_filter.py`'s main block:
  - the call of `get_identifiers` on the directory is modelled only through
    `ParseFilter.DirectoryTaskAgree`;
  - the external `bin/annotation_download.sh` call per task id is a subprocess and
    is not modelled.
- The creation of the `output` directory and the opening of the output files. The
  writer returns the file contents.
- The Segments.AI client wrappers (`list_datasets`, `get_dataset`,
  `list_samples`, `get_samples`). They are foreign calls.
  - `get_labels` for one sample is the function `Reconcile.Fetched` over the
    `getLabel` parameter.
  - The model's `getLabel` returns the same annotation objects each time it is
    asked. The service returns fresh ones, so the model lets a second fetch of a
    label see the names resolved by the first.
- `download_segmentation_bitmap` and `json.dump` are I/O. A download is an event
  carrying the outcome `downloadOk` gives it. A legend write is an event carrying
  the label whose annotations it holds and the path of the file it writes.
- `scan_cvat_dir` and `get_file_mtime` (filesystem) and `str_to_datetime` (date
  parsing). Tiles, including their mask times, are inputs, and times are integers.
  The two times come from different clocks: `get_file_mtime` gives the mask's time
  in the machine's local time, and `str_to_datetime` drops the `Z` of the
  service's UTC time. Both are naive, so outside UTC the `>=` of the staleness
  test is off by the local offset from UTC. The model compares the two integers
  as given and does not capture that offset.
- The regular expression that derives the dataset name from the CVAT directory.
  The loop starts from the dataset and its samples.
- The stripping of blanks from the comma-separated labelset names. The loop takes
  the list of names as given.
- Missing keys other than `label_status` are not modelled: `attributes`,
  `categories`, `annotations`, `category_id`, `uuid` and `updated_at` are always
  present.
- `ParseFilter.CheckMatchFile` requires at least 3 fields. This is the only way
  `parse_filter_names` calls it.
- Reconcile.PlanSound and the rest of the loop model take `getLabel` as always
  answering and the legend file write as always succeeding. In the script a
  label request that raises (a network error, a missing label) is not caught in
  the loop and ends the whole run. So does an OS error from `open(path, "w")` or
  `json.dump` in `save_class_legend`; it comes after the annotations were
  resolved in place, so the run ends with them resolved and no legend written.
  The model does not capture either way of ending the run. Its soundness says
  only that the legend step ends the run when no labelset is selected.
- Reconcile.LabelStep ends the run only on the errors the legend step raises
  before writing (no labelset selected, no `label_status`). A failing write of
  the classes file is not one of its outcomes.
- Reconcile.Reconcile requires the annotations it may update to exist before the
  call. In the script they are created by the fetches during the loop.

## Findings

| source | as written | input that shows it | evidently intended | confidence | as-written member | corrected member |
|---|---|---|---|---|---|---|
| bin/segmentsai_download.py:226 | `filter_samples` tests `name is None`, but its parameter is `names`, so every call raises NameError | any call, e.g. samples `[{"name": "a", "uuid": "u"}]` with no names | the same filter as `filter_labelsets`: no names returns the samples, otherwise keep the samples whose name passes | high (not executed) | SegmentsAI.FilterSamplesAsWritten | SegmentsAI.FilterSamples |
