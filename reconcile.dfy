/** The main loop of the Segments.AI downloader: for every tile found on disk
    and every sample of the dataset with the same name, fetch the sample's
    labels, keep the LABELED and REVIEWED ones, and for each either skip it
    (the tile's mask is recent enough) or download its bitmap and write its
    class legend. A failed download is reported and the legend is still
    written; an error raised by the legend step ends the run.

    What the loop does is recorded as a log of events. The service and the
    download are parameters: `getLabel` answers a label request and
    `downloadOk` says whether a download succeeds. */
module Reconcile {
  import opened Common
  import opened PyStr
  import opened Seqs
  import opened SegmentsAI

  /** A tile image found on disk, and the time of its mask file if there is one. */
  datatype Tile = Tile(name: string, path: string, modified: Option<int>)

  /** The dataset, the labelset names given on the command line, and the outside
      world as the loop sees it. */
  datatype Env = Env(ds: Dataset, labelsets: seq<string>,
                     getLabel: (string, string) -> Label,
                     downloadOk: (string, string) -> bool)

  datatype Event =
    | Fetch(tile: Tile, sample: Sample)
    | Skip(tile: Tile, lbl: Label)
    | Download(tile: Tile, lbl: Label, ok: bool)
    | WriteLegend(tile: Tile, lbl: Label, path: string)

  /** The events so far, and whether an error has ended the run. */
  datatype Run = Run(events: seq<Event>, aborted: bool)

  /** The statuses of the labels the loop acts on. */
  const Accepted: seq<string> := ["LABELED", "REVIEWED"]

  // ---------------------------------------------------------------- paths

  function RStripSlashes(s: string): string
    decreases |s|
  {
    if s != [] && s[|s| - 1] == '/' then RStripSlashes(s[..|s| - 1]) else s
  }

  /** `os.path.dirname`: the text up to the last `/`, without trailing slashes
      unless it consists of slashes only. */
  function Dirname(p: string): string
  {
    var head := p[..LastIndex(p, '/') + 1];
    if exists k :: 0 <= k < |head| && head[k] != '/' then RStripSlashes(head) else head
  }

  /** `os.path.join` of two parts. */
  function PathJoin(a: string, b: string): string
  {
    if |b| > 0 && b[0] == '/' then b
    else if a == [] || a[|a| - 1] == '/' then a + b
    else a + "/" + b
  }

  function MaskPath(t: Tile): string
  {
    PathJoin(Dirname(t.path), MaskFileName)
  }

  function ClassesPath(t: Tile): string
  {
    PathJoin(Dirname(t.path), ClassesFileName)
  }

  // ---------------------------------------------------------------- plan

  /** `get_labels` for one sample: one label per labelset name, in that order. */
  function Fetched(env: Env, uuid: string): (r: seq<Label>)
    ensures |r| == |env.labelsets|
    ensures forall k :: 0 <= k < |r| ==> r[k] == env.getLabel(uuid, env.labelsets[k])
  {
    Map(env.labelsets, n => env.getLabel(uuid, n))
  }

  /** The legend step raises: no labelset is selected, or the label has no status. */
  predicate LegendFails(env: Env, l: Label)
  {
    LegendCategories(env.ds.tasks, NameList(env.labelsets)).Err? || l.labelStatus.None?
  }

  /** The categories every legend of the run resolves against. */
  function Cats(env: Env): seq<Category>
  {
    match LegendCategories(env.ds.tasks, NameList(env.labelsets))
    case Ok(cats) => cats
    case Err(_) => []
  }

  /** One label: skip it, or download its bitmap and then write its legend. */
  function LabelStep(env: Env, run: Run, t: Tile, l: Label): Run
  {
    if run.aborted then run
    else if UpToDate(t.modified, l.updatedAt) then Run(run.events + [Skip(t, l)], false)
    else
      var dl := Download(t, l, env.downloadOk(l.bitmapUrl, MaskPath(t)));
      if LegendFails(env, l) then Run(run.events + [dl], true)
      else Run(run.events + [dl, WriteLegend(t, l, ClassesPath(t))], false)
  }

  function LabelsRun(env: Env, run: Run, t: Tile, labels: seq<Label>): Run
    decreases |labels|
  {
    if labels == [] then run
    else LabelStep(env, LabelsRun(env, run, t, labels[..|labels| - 1]), t, labels[|labels| - 1])
  }

  /** One (tile, sample) pair: when the names agree, fetch and process the labels. */
  function SampleStep(env: Env, run: Run, t: Tile, s: Sample): Run
  {
    if run.aborted || t.name != s.name then run
    else LabelsRun(env, Run(run.events + [Fetch(t, s)], false), t, WithStatus(Fetched(env, s.uuid), Accepted))
  }

  function SamplesRun(env: Env, run: Run, t: Tile, samples: seq<Sample>): Run
    decreases |samples|
  {
    if samples == [] then run
    else SampleStep(env, SamplesRun(env, run, t, samples[..|samples| - 1]), t, samples[|samples| - 1])
  }

  function TilesRun(env: Env, run: Run, tiles: seq<Tile>, samples: seq<Sample>): Run
    decreases |tiles|
  {
    if tiles == [] then run
    else SamplesRun(env, TilesRun(env, run, tiles[..|tiles| - 1], samples), tiles[|tiles| - 1], samples)
  }

  /** The whole run, from an empty log. */
  function Plan(env: Env, tiles: seq<Tile>, samples: seq<Sample>): Run
  {
    TilesRun(env, Run([], false), tiles, samples)
  }

  // ---------------------------------------------------------------- aborting

  /** Once the run has ended, later labels add nothing. */
  /** One more label is one more step of the run. */
  lemma LabelsRunStep(env: Env, run: Run, t: Tile, labels: seq<Label>, i: nat)
    requires i < |labels|
    ensures LabelsRun(env, run, t, labels[..i + 1]) == LabelStep(env, LabelsRun(env, run, t, labels[..i]), t, labels[i])
  {
    assert labels[..i + 1][..i] == labels[..i];
  }

  lemma {:induction false} LabelsAbortStays(env: Env, run: Run, t: Tile, labels: seq<Label>, n: nat)
    requires n <= |labels| && LabelsRun(env, run, t, labels[..n]).aborted
    ensures LabelsRun(env, run, t, labels) == LabelsRun(env, run, t, labels[..n])
    decreases |labels|
  {
    if n < |labels| {
      var init := labels[..|labels| - 1];
      assert init[..n] == labels[..n];
      LabelsAbortStays(env, run, t, init, n);
    } else {
      assert labels[..n] == labels;
    }
  }

  lemma {:induction false} SamplesAbortStays(env: Env, run: Run, t: Tile, samples: seq<Sample>, n: nat)
    requires n <= |samples| && SamplesRun(env, run, t, samples[..n]).aborted
    ensures SamplesRun(env, run, t, samples) == SamplesRun(env, run, t, samples[..n])
    decreases |samples|
  {
    if n < |samples| {
      var init := samples[..|samples| - 1];
      assert init[..n] == samples[..n];
      SamplesAbortStays(env, run, t, init, n);
    } else {
      assert samples[..n] == samples;
    }
  }

  lemma {:induction false} TilesAbortStays(env: Env, run: Run, tiles: seq<Tile>, samples: seq<Sample>, n: nat)
    requires n <= |tiles| && TilesRun(env, run, tiles[..n], samples).aborted
    ensures TilesRun(env, run, tiles, samples) == TilesRun(env, run, tiles[..n], samples)
    decreases |tiles|
  {
    if n < |tiles| {
      var init := tiles[..|tiles| - 1];
      assert init[..n] == tiles[..n];
      TilesAbortStays(env, run, init, samples, n);
      SamplesAbortStays(env, TilesRun(env, run, init, samples), tiles[|tiles| - 1], samples, 0);
    } else {
      assert tiles[..n] == tiles;
    }
  }

  // ---------------------------------------------------------------- properties

  /** What each event records is what decided it: a fetch is for a tile and a
      sample of the same name; a skipped label is up to date; a downloaded label
      and a written legend are not, and the legend goes to the classes file
      beside the tile; every label acted on is LABELED or REVIEWED. */
  predicate Justified(e: Event)
  {
    match e
    case Fetch(t, s) => t.name == s.name
    case Skip(t, l) => UpToDate(t.modified, l.updatedAt) && HasStatusIn(l, Accepted)
    case Download(t, l, _) => !UpToDate(t.modified, l.updatedAt) && HasStatusIn(l, Accepted)
    case WriteLegend(t, l, f) => f == ClassesPath(t) && !UpToDate(t.modified, l.updatedAt) && HasStatusIn(l, Accepted)
  }

  /** The invariant of a run: every event is justified; every download, failed
      or not, is followed at once by the legend of the same tile and label, and
      every legend comes right after that download, unless the legend step ended
      the run, which it only does when no labelset is selected. (Label requests
      always answer here, so a request that raises is not a way to end it.) */
  ghost predicate AllJustified(ev: seq<Event>)
  {
    forall k :: 0 <= k < |ev| ==> Justified(ev[k])
  }

  /** The download at `k`, if it is one, is followed at once by the legend of
      its tile and label, unless it is the last event and `lastOpen` holds. */
  predicate DownloadPairedAt(ev: seq<Event>, lastOpen: bool, k: nat)
    requires k < |ev|
  {
    ev[k].Download? ==>
      (k + 1 < |ev| && ev[k + 1] == WriteLegend(ev[k].tile, ev[k].lbl, ClassesPath(ev[k].tile))) || (lastOpen && k == |ev| - 1)
  }

  /** The legend at `k`, if it is one, comes right after the download of its
      tile and label. */
  predicate LegendPairedAt(ev: seq<Event>, k: nat)
    requires k < |ev|
  {
    ev[k].WriteLegend? ==>
      0 < k && ev[k - 1].Download? && ev[k - 1].tile == ev[k].tile && ev[k - 1].lbl == ev[k].lbl
  }

  ghost predicate DownloadsPaired(ev: seq<Event>, lastOpen: bool)
  {
    forall k: nat :: k < |ev| ==> DownloadPairedAt(ev, lastOpen, k)
  }

  ghost predicate LegendsPaired(ev: seq<Event>)
  {
    forall k: nat :: k < |ev| ==> LegendPairedAt(ev, k)
  }

  ghost predicate Sound(env: Env, run: Run)
  {
    && AllJustified(run.events)
    && DownloadsPaired(run.events, run.aborted)
    && LegendsPaired(run.events)
    && (run.aborted ==> LegendCategories(env.ds.tasks, NameList(env.labelsets)).Err?)
  }

  /** Appending justified events that neither start with a legend nor contain
      a download without its legend keeps a sound, unfinished run sound. */
  lemma SoundAppend(env: Env, run: Run, more: seq<Event>)
    requires Sound(env, run) && !run.aborted
    requires AllJustified(more) && DownloadsPaired(more, false) && LegendsPaired(more)
    requires more != [] ==> !more[0].WriteLegend?
    ensures Sound(env, Run(run.events + more, false))
  {
    var ev, n := run.events + more, |run.events|;
    forall k | 0 <= k < |ev|
      ensures Justified(ev[k])
    {
      if k < n {
        assert ev[k] == run.events[k];
      } else {
        assert ev[k] == more[k - n];
      }
    }
    forall k: nat | k < |ev|
      ensures DownloadPairedAt(ev, false, k) && LegendPairedAt(ev, k)
    {
      if k < n {
        assert DownloadPairedAt(run.events, false, k) && LegendPairedAt(run.events, k);
        assert ev[k] == run.events[k];
        if k + 1 < n {
          assert ev[k + 1] == run.events[k + 1];
        } else if k + 1 == n && more != [] {
          assert ev[k + 1] == more[0];
        }
        if 0 < k {
          assert ev[k - 1] == run.events[k - 1];
        }
      } else {
        assert DownloadPairedAt(more, false, k - n) && LegendPairedAt(more, k - n);
        assert ev[k] == more[k - n];
        if k + 1 < |ev| {
          assert ev[k + 1] == more[k + 1 - n];
        }
        if n < k {
          assert ev[k - 1] == more[k - 1 - n];
        }
      }
    }
  }

  /** A justified download followed by the legend step's error keeps a sound
      run sound. */
  lemma AbortAppendSound(env: Env, run: Run, dl: Event)
    requires Sound(env, run) && !run.aborted
    requires dl.Download? && Justified(dl) && LegendCategories(env.ds.tasks, NameList(env.labelsets)).Err?
    ensures Sound(env, Run(run.events + [dl], true))
  {
    var ev, n := run.events + [dl], |run.events|;
    forall k: nat | k < |ev|
      ensures Justified(ev[k]) && DownloadPairedAt(ev, true, k) && LegendPairedAt(ev, k)
    {
      if k < n {
        assert DownloadPairedAt(run.events, false, k) && LegendPairedAt(run.events, k);
        assert ev[k] == run.events[k];
        if k + 1 < n {
          assert ev[k + 1] == run.events[k + 1];
        }
        if 0 < k {
          assert ev[k - 1] == run.events[k - 1];
        }
      }
    }
  }

  lemma LabelStepSound(env: Env, run: Run, t: Tile, l: Label)
    requires Sound(env, run) && HasStatusIn(l, Accepted)
    ensures Sound(env, LabelStep(env, run, t, l))
  {
    if !run.aborted {
      var dl := Download(t, l, env.downloadOk(l.bitmapUrl, MaskPath(t)));
      if UpToDate(t.modified, l.updatedAt) {
        SoundAppend(env, run, [Skip(t, l)]);
      } else if LegendFails(env, l) {
        AbortAppendSound(env, run, dl);
      } else {
        SoundAppend(env, run, [dl, WriteLegend(t, l, ClassesPath(t))]);
      }
    }
  }

  lemma {:induction false} LabelsRunSound(env: Env, run: Run, t: Tile, labels: seq<Label>)
    requires Sound(env, run)
    requires forall k :: 0 <= k < |labels| ==> HasStatusIn(labels[k], Accepted)
    ensures Sound(env, LabelsRun(env, run, t, labels))
    decreases |labels|
  {
    if labels != [] {
      LabelsRunSound(env, run, t, labels[..|labels| - 1]);
      LabelStepSound(env, LabelsRun(env, run, t, labels[..|labels| - 1]), t, labels[|labels| - 1]);
    }
  }

  lemma SampleStepSound(env: Env, run: Run, t: Tile, s: Sample)
    requires Sound(env, run)
    ensures Sound(env, SampleStep(env, run, t, s))
  {
    if !run.aborted && t.name == s.name {
      SoundAppend(env, run, [Fetch(t, s)]);
      var accepted := WithStatus(Fetched(env, s.uuid), Accepted);
      LabelsRunSound(env, Run(run.events + [Fetch(t, s)], false), t, accepted);
    }
  }

  lemma {:induction false} SamplesRunSound(env: Env, run: Run, t: Tile, samples: seq<Sample>)
    requires Sound(env, run)
    ensures Sound(env, SamplesRun(env, run, t, samples))
    decreases |samples|
  {
    if samples != [] {
      SamplesRunSound(env, run, t, samples[..|samples| - 1]);
      SampleStepSound(env, SamplesRun(env, run, t, samples[..|samples| - 1]), t, samples[|samples| - 1]);
    }
  }

  lemma {:induction false} TilesRunSound(env: Env, run: Run, tiles: seq<Tile>, samples: seq<Sample>)
    requires Sound(env, run)
    ensures Sound(env, TilesRun(env, run, tiles, samples))
    decreases |tiles|
  {
    if tiles != [] {
      TilesRunSound(env, run, tiles[..|tiles| - 1], samples);
      SamplesRunSound(env, TilesRun(env, run, tiles[..|tiles| - 1], samples), tiles[|tiles| - 1], samples);
    }
  }

  /** Every run of the loop is sound. In particular a failed download still has
      its legend written, a skipped label gets neither, and the legend step ends
      the run only when none of the dataset's labelsets is selected. */
  lemma PlanSound(env: Env, tiles: seq<Tile>, samples: seq<Sample>)
    ensures Sound(env, Plan(env, tiles, samples))
  {
    TilesRunSound(env, Run([], false), tiles, samples);
  }

  /** The staleness decision for one label of a run still going: it is skipped,
      and nothing else happens to it, exactly when the tile has a mask whose
      time is not earlier than the label's update; otherwise its bitmap is
      downloaded first. Equal times skip. */
  lemma StalenessDecision(env: Env, run: Run, t: Tile, l: Label)
    requires !run.aborted
    ensures var after := LabelStep(env, run, t, l).events;
      |after| > |run.events| && after[..|run.events|] == run.events &&
      (after[|run.events|] == Skip(t, l) <==> t.modified.Some? && t.modified.value >= l.updatedAt) &&
      (after[|run.events|] == Skip(t, l) ==> |after| == |run.events| + 1) &&
      (after[|run.events|] != Skip(t, l) ==> after[|run.events|].Download?)
  {
  }

  /** A label skipped on a tile is never downloaded or given a legend there. */
  lemma SkippedNeverDownloaded(env: Env, tiles: seq<Tile>, samples: seq<Sample>, k: nat, j: nat)
    requires k < |Plan(env, tiles, samples).events| && j < |Plan(env, tiles, samples).events|
    requires Plan(env, tiles, samples).events[k].Skip?
    ensures var ev := Plan(env, tiles, samples).events;
      (ev[j].Download? || ev[j].WriteLegend?) ==> ev[j].tile != ev[k].tile || ev[j].lbl != ev[k].lbl
  {
    PlanSound(env, tiles, samples);
    var ev := Plan(env, tiles, samples).events;
    assert Justified(ev[k]) && Justified(ev[j]);
  }

  /** Every legend is written to `segments_ai_classes.json` beside its tile, so
      all legends written for tiles in one directory go to the same file, the
      last one overwriting the others. */
  lemma LegendFileOfTile(env: Env, tiles: seq<Tile>, samples: seq<Sample>, k: nat, j: nat)
    requires k < |Plan(env, tiles, samples).events| && j < |Plan(env, tiles, samples).events|
    requires Plan(env, tiles, samples).events[k].WriteLegend?
    ensures var ev := Plan(env, tiles, samples).events;
      ev[k].path == ClassesPath(ev[k].tile)
    ensures var ev := Plan(env, tiles, samples).events;
      ev[j].WriteLegend? && Dirname(ev[j].tile.path) == Dirname(ev[k].tile.path) ==> ev[j].path == ev[k].path
  {
    PlanSound(env, tiles, samples);
    var ev := Plan(env, tiles, samples).events;
    assert Justified(ev[k]) && Justified(ev[j]);
  }

  predicate IsFetch(e: Event)
  {
    e.Fetch?
  }

  /** The fetches a tile calls for: one per sample of the same name, in the
      samples' order. */
  function MatchesOf(t: Tile, samples: seq<Sample>): seq<Event>
    decreases |samples|
  {
    if samples == [] then []
    else
      var s := samples[|samples| - 1];
      MatchesOf(t, samples[..|samples| - 1]) + (if t.name == s.name then [Fetch(t, s)] else [])
  }

  /** All (tile, sample) pairs with equal names, tile by tile. */
  function Pairs(tiles: seq<Tile>, samples: seq<Sample>): seq<Event>
    decreases |tiles|
  {
    if tiles == [] then [] else Pairs(tiles[..|tiles| - 1], samples) + MatchesOf(tiles[|tiles| - 1], samples)
  }

  /** The labels of a pair add no fetch. */
  lemma {:induction false} LabelsRunFetches(env: Env, run: Run, t: Tile, labels: seq<Label>)
    ensures Filter(LabelsRun(env, run, t, labels).events, IsFetch) == Filter(run.events, IsFetch)
    decreases |labels|
  {
    if labels != [] {
      var before := LabelsRun(env, run, t, labels[..|labels| - 1]);
      LabelsRunFetches(env, run, t, labels[..|labels| - 1]);
      var l := labels[|labels| - 1];
      if !before.aborted && !UpToDate(t.modified, l.updatedAt) {
        var dl := Download(t, l, env.downloadOk(l.bitmapUrl, MaskPath(t)));
        FilterSnoc(before.events, dl, IsFetch);
        var wl := WriteLegend(t, l, ClassesPath(t));
        FilterSnoc(before.events + [dl], wl, IsFetch);
        assert before.events + [dl, wl] == before.events + [dl] + [wl];
      } else if !before.aborted {
        FilterSnoc(before.events, Skip(t, l), IsFetch);
      }
    }
  }

  lemma {:induction false} SamplesRunFetches(env: Env, run: Run, t: Tile, samples: seq<Sample>)
    requires !SamplesRun(env, run, t, samples).aborted
    ensures Filter(SamplesRun(env, run, t, samples).events, IsFetch) ==
      Filter(run.events, IsFetch) + MatchesOf(t, samples)
    decreases |samples|
  {
    if samples == [] {
      assert Filter(run.events, IsFetch) + [] == Filter(run.events, IsFetch);
    } else {
      var before := SamplesRun(env, run, t, samples[..|samples| - 1]);
      var s := samples[|samples| - 1];
      assert !before.aborted;
      SamplesRunFetches(env, run, t, samples[..|samples| - 1]);
      if t.name == s.name {
        var start := Run(before.events + [Fetch(t, s)], false);
        LabelsRunFetches(env, start, t, WithStatus(Fetched(env, s.uuid), Accepted));
        FilterSnoc(before.events, Fetch(t, s), IsFetch);
      }
    }
  }

  lemma {:induction false} TilesRunFetches(env: Env, run: Run, tiles: seq<Tile>, samples: seq<Sample>)
    requires !TilesRun(env, run, tiles, samples).aborted
    ensures Filter(TilesRun(env, run, tiles, samples).events, IsFetch) ==
      Filter(run.events, IsFetch) + Pairs(tiles, samples)
    decreases |tiles|
  {
    if tiles == [] {
      assert Filter(run.events, IsFetch) + [] == Filter(run.events, IsFetch);
    } else {
      var init, t := tiles[..|tiles| - 1], tiles[|tiles| - 1];
      var before := TilesRun(env, run, init, samples);
      SamplesRunOfAborted(env, before, t, samples);
      TilesRunFetches(env, run, init, samples);
      SamplesRunFetches(env, before, t, samples);
      ConcatAssoc(Filter(run.events, IsFetch), Pairs(init, samples), MatchesOf(t, samples));
    }
  }

  lemma SamplesRunOfAborted(env: Env, run: Run, t: Tile, samples: seq<Sample>)
    ensures run.aborted ==> SamplesRun(env, run, t, samples) == run
  {
    if run.aborted {
      SamplesAbortStays(env, run, t, samples, 0);
    }
  }

  /** A run that is not ended early fetches the labels of exactly the
      (tile, sample) pairs with equal names, tile by tile and, within a tile,
      in the samples' order; a sample name that occurs twice is fetched twice. */
  lemma PlanFetches(env: Env, tiles: seq<Tile>, samples: seq<Sample>)
    requires !Plan(env, tiles, samples).aborted
    ensures Filter(Plan(env, tiles, samples).events, IsFetch) == Pairs(tiles, samples)
  {
    TilesRunFetches(env, Run([], false), tiles, samples);
  }

  // ---------------------------------------------------------------- the loop

  /** The annotations of every label the loop can fetch: the ones it may update. */
  ghost function Owned(env: Env, samples: seq<Sample>): set<Annotation>
  {
    set k, j, a | 0 <= k < |samples| && 0 <= j < |env.labelsets| &&
      a in env.getLabel(samples[k].uuid, env.labelsets[j]).annotations :: a
  }

  /** Some legend written so far holds `a`. */
  ghost predicate Touched(events: seq<Event>, a: Annotation)
  {
    exists k :: 0 <= k < |events| && events[k].WriteLegend? && a in events[k].lbl.annotations
  }

  /** Every annotation in `anns` has its original name `base[a]`, resolved
      against `cats` if a written legend holds it. */
  ghost predicate Consistent(events: seq<Event>, anns: set<Annotation>,
                             base: map<Annotation, Option<string>>, cats: seq<Category>)
    reads anns
  {
    forall a :: a in anns ==> (a in base &&
      a.categoryName == (if Touched(events, a) then Resolution(cats, a.categoryId, base[a]) else base[a]))
  }

  lemma TouchedSnoc(events: seq<Event>, e: Event)
    ensures forall a :: Touched(events + [e], a) <==>
      Touched(events, a) || (e.WriteLegend? && a in e.lbl.annotations)
  {
    var events' := events + [e];
    forall a | Touched(events', a)
      ensures Touched(events, a) || (e.WriteLegend? && a in e.lbl.annotations)
    {
      var k :| 0 <= k < |events'| && events'[k].WriteLegend? && a in events'[k].lbl.annotations;
      if k < |events| {
        assert events'[k] == events[k];
      }
    }
    forall a | Touched(events, a)
      ensures Touched(events', a)
    {
      var k :| 0 <= k < |events| && events[k].WriteLegend? && a in events[k].lbl.annotations;
      assert events'[k] == events[k];
    }
    forall a | e.WriteLegend? && a in e.lbl.annotations
      ensures Touched(events', a)
    {
      assert events'[|events|] == e;
    }
  }

  /** The labels fetched for a sample hold only owned annotations. */
  lemma FetchedOwned(env: Env, samples: seq<Sample>, k: nat, l: Label)
    requires k < |samples| && l in WithStatus(Fetched(env, samples[k].uuid), Accepted)
    ensures forall a :: a in l.annotations ==> a in Owned(env, samples)
  {
    var fetched := Fetched(env, samples[k].uuid);
    var j :| 0 <= j < |fetched| && fetched[j] == l;
    assert l == env.getLabel(samples[k].uuid, env.labelsets[j]);
  }

  /** One accepted label of a pair: skip it when the mask is up to date,
      otherwise download its mask and write its legend, resolving the names of
      its annotations in place. */
  method ProcessLabel(env: Env, t: Tile, l: Label, run: Run,
                      ghost anns: set<Annotation>, ghost base: map<Annotation, Option<string>>)
    returns (run': Run)
    requires !run.aborted
    requires forall a :: a in l.annotations ==> a in anns
    requires Consistent(run.events, anns, base, Cats(env))
    modifies anns
    ensures run' == LabelStep(env, run, t, l)
    ensures Consistent(run'.events, anns, base, Cats(env))
    ensures forall a :: a in anns ==> a.id == old(a.id) && a.categoryId == old(a.categoryId)
  {
    if UpToDate(t.modified, l.updatedAt) {
      TouchedSnoc(run.events, Skip(t, l));
      return Run(run.events + [Skip(t, l)], false);
    }
    var ok := env.downloadOk(l.bitmapUrl, MaskPath(t));
    TouchedSnoc(run.events, Download(t, l, ok));
    run' := Run(run.events + [Download(t, l, ok)], false);
    var legend := SaveClassLegend(env.ds, l, NameList(env.labelsets));
    if legend.Err? {
      return Run(run'.events, true);
    }
    TouchedSnoc(run'.events, WriteLegend(t, l, ClassesPath(t)));
    forall a | a in l.annotations
      ensures Resolution(Cats(env), a.categoryId, old(a.categoryName)) ==
              Resolution(Cats(env), a.categoryId, base[a])
    {
      ResolutionIdempotent(Cats(env), a.categoryId, base[a]);
    }
    run' := Run(run'.events + [WriteLegend(t, l, ClassesPath(t))], false);
  }

  /** The loop over one pair's accepted labels. */
  method ProcessLabels(env: Env, t: Tile, labels: seq<Label>, run: Run,
                       ghost anns: set<Annotation>, ghost base: map<Annotation, Option<string>>)
    returns (run': Run)
    requires !run.aborted
    requires forall l, a :: l in labels && a in l.annotations ==> a in anns
    requires Consistent(run.events, anns, base, Cats(env))
    modifies anns
    ensures run' == LabelsRun(env, run, t, labels)
    ensures Consistent(run'.events, anns, base, Cats(env))
    ensures forall a :: a in anns ==> a.id == old(a.id) && a.categoryId == old(a.categoryId)
  {
    run' := run;
    for i := 0 to |labels|
      invariant !run'.aborted
      invariant run' == LabelsRun(env, run, t, labels[..i])
      invariant Consistent(run'.events, anns, base, Cats(env))
      invariant forall a :: a in anns ==> a.id == old(a.id) && a.categoryId == old(a.categoryId)
    {
      LabelsRunStep(env, run, t, labels, i);
      run' := ProcessLabel(env, t, labels[i], run', anns, base);
      if run'.aborted {
        LabelsAbortStays(env, run, t, labels, i + 1);
        return;
      }
    }
    assert labels[..|labels|] == labels;
  }

  /** The loop over the samples for one tile. There is no `break`: every
      sample whose name equals the tile's is processed. */
  method ProcessTile(env: Env, t: Tile, samples: seq<Sample>, run: Run,
                     ghost base: map<Annotation, Option<string>>)
    returns (run': Run)
    requires !run.aborted
    requires Consistent(run.events, Owned(env, samples), base, Cats(env))
    modifies Owned(env, samples)
    ensures run' == SamplesRun(env, run, t, samples)
    ensures Consistent(run'.events, Owned(env, samples), base, Cats(env))
    ensures forall a :: a in Owned(env, samples) ==> a.id == old(a.id) && a.categoryId == old(a.categoryId)
  {
    ghost var anns := Owned(env, samples);
    run' := run;
    for j := 0 to |samples|
      invariant !run'.aborted
      invariant run' == SamplesRun(env, run, t, samples[..j])
      invariant Consistent(run'.events, anns, base, Cats(env))
      invariant forall a :: a in anns ==> a.id == old(a.id) && a.categoryId == old(a.categoryId)
    {
      assert samples[..j + 1][..j] == samples[..j];
      var s := samples[j];
      if t.name == s.name {
        var fetched := Fetched(env, s.uuid);
        var accepted := FilterLabels(fetched, StatusList(Accepted));
        forall l, a | l in accepted && a in l.annotations
          ensures a in anns
        {
          FetchedOwned(env, samples, j, l);
        }
        TouchedSnoc(run'.events, Fetch(t, s));
        run' := ProcessLabels(env, t, accepted, Run(run'.events + [Fetch(t, s)], false), anns, base);
        if run'.aborted {
          SamplesAbortStays(env, run, t, samples, j + 1);
          return;
        }
      }
    }
    assert samples[..|samples|] == samples;
  }

  /** The loop over the tiles. Returns the log of what was done and whether an
      error ended the run early; the annotations of the labels whose legends
      were written now carry their category names, and no other annotation
      changed. */
  method Reconcile(env: Env, tiles: seq<Tile>, samples: seq<Sample>) returns (log: seq<Event>, aborted: bool)
    requires forall a :: a in Owned(env, samples) ==> allocated(a)
    modifies Owned(env, samples)
    ensures Run(log, aborted) == Plan(env, tiles, samples)
    ensures forall a :: a in Owned(env, samples) ==> (a.id == old(a.id) && a.categoryId == old(a.categoryId) &&
      a.categoryName == (if Touched(log, a) then Resolution(Cats(env), a.categoryId, old(a.categoryName))
                         else old(a.categoryName)))
  {
    ghost var anns := Owned(env, samples);
    ghost var base := map a: Annotation | a in anns :: a.categoryName;
    var run := Run([], false);
    for i := 0 to |tiles|
      invariant !run.aborted
      invariant run == TilesRun(env, Run([], false), tiles[..i], samples)
      invariant Consistent(run.events, anns, base, Cats(env))
      invariant forall a :: a in anns ==> a.id == old(a.id) && a.categoryId == old(a.categoryId)
    {
      assert tiles[..i + 1][..i] == tiles[..i];
      run := ProcessTile(env, tiles[i], samples, run, base);
      if run.aborted {
        TilesAbortStays(env, Run([], false), tiles, samples, i + 1);
        return run.events, true;
      }
    }
    assert tiles[..|tiles|] == tiles;
    return run.events, false;
  }
}
