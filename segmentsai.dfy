/** The record logic of the Segments.AI downloader: the filters over labels,
    labelsets and samples, the category-name resolution of the class legend,
    and the staleness test. Labels, labelsets, categories and samples are the
    JSON records the service returns and are values here; an annotation is a
    dictionary the legend step updates in place, so it is a class, and a label
    holds references to its annotations. */
module SegmentsAI {
  import opened Common
  import opened Seqs

  /** File names inside a tile directory. */
  const MaskFileName: string := "segments_ai_classification_mask.png"
  const ClassesFileName: string := "segments_ai_classes.json"

  /** The `format_version` entry of every legend. */
  const FormatVersion: string := "0.0.1"

  /** One entry of a label's `annotations` list. */
  class Annotation {
    var id: int
    var categoryId: int
    /** Absent until resolution assigns it. */
    var categoryName: Option<string>
  }

  datatype Category = Category(id: int, name: string)

  /** A labelset ("task") of a dataset, with its category map. */
  datatype Labelset = Labelset(name: string, categories: seq<Category>)

  datatype Dataset = Dataset(tasks: seq<Labelset>)

  datatype Sample = Sample(name: string, uuid: string)

  /** A label: `labelStatus` is `None` when the record has no `label_status` key. */
  datatype Label = Label(uuid: string, labelStatus: Option<string>, updatedAt: int,
                         bitmapUrl: string, annotations: seq<Annotation>)

  /** The `status` argument of `filter_labels`: absent, a list, or any other value. */
  datatype StatusArg = NoStatus | StatusList(statuses: seq<string>) | StatusScalar(status: string)

  /** The `names` argument of the name filters: absent, a list, or a single name. */
  datatype Names = NoNames | NameList(names: seq<string>) | SingleName(name: string)

  /** The legend document: `format_version`, `uuid`, `label_status`, `label_map`. */
  datatype Legend = Legend(formatVersion: string, uuid: string, labelStatus: string,
                           labelMap: seq<Annotation>)

  // ---------------------------------------------------------------- labels

  predicate HasStatusIn(l: Label, statuses: seq<string>)
  {
    l.labelStatus.Some? && l.labelStatus.value in statuses
  }

  /** The labels that carry a listed status, in their original order. */
  function WithStatus(labels: seq<Label>, statuses: seq<string>): seq<Label>
  {
    Filter(labels, l => HasStatusIn(l, statuses))
  }

  /** `filter_labels`: with a list of statuses keep the labels whose status is
      listed; labels without a status are dropped; with no list at all nothing
      is kept. */
  method FilterLabels(labels: seq<Label>, status: StatusArg) returns (r: seq<Label>)
    ensures status.StatusList? ==> r == WithStatus(labels, status.statuses)
    ensures !status.StatusList? ==> r == []
  {
    r := [];
    if status.StatusList? {
      var statuses := status.statuses;
      for i := 0 to |labels|
        invariant r == WithStatus(labels[..i], statuses)
      {
        var l := labels[i];
        if l.labelStatus.Some? && l.labelStatus.value in statuses {
          r := r + [l];
        }
        assert labels[..i + 1] == labels[..i] + [l];
        FilterSnoc(labels[..i], l, x => HasStatusIn(x, statuses));
      }
      assert labels[..|labels|] == labels;
    }
  }

  /** A label is kept iff it has a status and that status is listed. */
  lemma WithStatusSelects(labels: seq<Label>, statuses: seq<string>, k: nat)
    requires k < |labels|
    ensures labels[k] in WithStatus(labels, statuses) <==> HasStatusIn(labels[k], statuses)
  {
    var r := WithStatus(labels, statuses);
    if labels[k] in r {
      var j :| 0 <= j < |r| && r[j] == labels[k];
    }
  }

  /** The filter keeps the original order: it distributes over concatenation. */
  lemma WithStatusConcat(a: seq<Label>, b: seq<Label>, statuses: seq<string>)
    ensures WithStatus(a + b, statuses) == WithStatus(a, statuses) + WithStatus(b, statuses)
  {
    FilterConcat(a, b, l => HasStatusIn(l, statuses));
  }

  // ---------------------------------------------------------------- names

  /** Whether a record's name passes the `names` argument. */
  predicate Selected(name: string, names: Names)
  {
    match names
    case NoNames => true
    case NameList(ns) => name in ns
    case SingleName(n) => name == n
  }

  /** The records whose names pass `names`, in their original order. */
  function ByName<T>(items: seq<T>, nameOf: T -> string, names: Names): seq<T>
  {
    Filter(items, x => Selected(nameOf(x), names))
  }

  /** The loop shared by `filter_labelsets` and `filter_samples`: no names
      returns the input itself; a list keeps the records whose name is in it;
      any other value keeps the records whose name equals it. */
  method FilterByName<T>(items: seq<T>, nameOf: T -> string, names: Names) returns (r: seq<T>)
    ensures r == ByName(items, nameOf, names)
    ensures names.NoNames? ==> r == items
  {
    if names.NoNames? {
      FilterAll(items, x => Selected(nameOf(x), names));
      return items;
    }
    r := [];
    for i := 0 to |items|
      invariant r == ByName(items[..i], nameOf, names)
    {
      var x := items[i];
      if names.NameList? && nameOf(x) in names.names {
        r := r + [x];
      } else if names.SingleName? && nameOf(x) == names.name {
        r := r + [x];
      }
      assert items[..i + 1] == items[..i] + [x];
      FilterSnoc(items[..i], x, y => Selected(nameOf(y), names));
    }
    assert items[..|items|] == items;
  }

  function LabelsetName(ls: Labelset): string
  {
    ls.name
  }

  function SampleName(s: Sample): string
  {
    s.name
  }

  /** `filter_labelsets`. */
  method FilterLabelsets(labelsets: seq<Labelset>, names: Names) returns (r: seq<Labelset>)
    ensures r == ByName(labelsets, LabelsetName, names)
    ensures names.NoNames? ==> r == labelsets
  {
    r := FilterByName(labelsets, LabelsetName, names);
  }

  /** A labelset is kept iff its name passes `names`. */
  lemma ByNameSelects<T>(items: seq<T>, nameOf: T -> string, names: Names, k: nat)
    requires k < |items|
    ensures items[k] in ByName(items, nameOf, names) <==> Selected(nameOf(items[k]), names)
  {
    var r := ByName(items, nameOf, names);
    if items[k] in r {
      var j :| 0 <= j < |r| && r[j] == items[k];
    }
  }

  /** No names keeps every record. */
  lemma ByNameAll<T>(items: seq<T>, nameOf: T -> string)
    ensures ByName(items, nameOf, NoNames) == items
  {
    FilterAll(items, x => Selected(nameOf(x), NoNames));
  }

  /** The first record kept is the first whose name passes. */
  lemma ByNameHead<T>(items: seq<T>, nameOf: T -> string, names: Names)
    requires ByName(items, nameOf, names) != []
    ensures exists k :: (0 <= k < |items| && Selected(nameOf(items[k]), names) &&
      ByName(items, nameOf, names)[0] == items[k] && (forall j :: 0 <= j < k ==> !Selected(nameOf(items[j]), names)))
  {
    FilterHead(items, x => Selected(nameOf(x), names));
  }

  // ---------------------------------------------------------------- legend

  /** The category map the legend uses: that of the first labelset whose name
      passes `names`; an index error when there is none. */
  function LegendCategories(tasks: seq<Labelset>, names: Names): (r: Result<seq<Category>>)
    ensures r.Err? ==> r.error == IndexError
    ensures r.Err? <==> forall k :: 0 <= k < |tasks| ==> !Selected(tasks[k].name, names)
    ensures r.Ok? ==> exists k :: (0 <= k < |tasks| && Selected(tasks[k].name, names) &&
      r.value == tasks[k].categories && (forall j :: 0 <= j < k ==> !Selected(tasks[j].name, names)))
  {
    var selected := ByName(tasks, LabelsetName, names);
    if selected == [] then
      assert forall k :: 0 <= k < |tasks| ==> !Selected(LabelsetName(tasks[k]), names);
      Err(IndexError)
    else
      ByNameHead(tasks, LabelsetName, names);
      Ok(selected[0].categories)
  }

  /** The name of the last category in `cats` whose id is `id`, if any. */
  function LastMatch(cats: seq<Category>, id: int): (r: Option<string>)
    ensures r.None? <==> forall k :: 0 <= k < |cats| ==> cats[k].id != id
    ensures r.Some? ==> exists k :: (0 <= k < |cats| && cats[k].id == id && cats[k].name == r.value &&
      (forall j :: k < j < |cats| ==> cats[j].id != id))
    decreases |cats|
  {
    if cats == [] then None
    else if cats[|cats| - 1].id == id then Some(cats[|cats| - 1].name)
    else LastMatch(cats[..|cats| - 1], id)
  }

  /** The category name of an annotation with category id `id` and name `name`
      after resolution against `cats`. */
  function Resolution(cats: seq<Category>, id: int, name: Option<string>): Option<string>
  {
    if LastMatch(cats, id).Some? then LastMatch(cats, id) else name
  }

  /** Resolving twice is resolving once. */
  lemma ResolutionIdempotent(cats: seq<Category>, id: int, name: Option<string>)
    ensures Resolution(cats, id, Resolution(cats, id, name)) == Resolution(cats, id, name)
  {
  }

  /** The inner loop of the resolution: every category with the annotation's id
      overwrites its name, so the last one wins. */
  method ResolveOne(a: Annotation, cats: seq<Category>)
    modifies a
    ensures a.id == old(a.id) && a.categoryId == old(a.categoryId)
    ensures a.categoryName == Resolution(cats, a.categoryId, old(a.categoryName))
  {
    for j := 0 to |cats|
      invariant a.id == old(a.id) && a.categoryId == old(a.categoryId)
      invariant a.categoryName == Resolution(cats[..j], a.categoryId, old(a.categoryName))
    {
      if cats[j].id == a.categoryId {
        a.categoryName := Some(cats[j].name);
      }
      assert cats[..j + 1][..j] == cats[..j];
    }
    assert cats[..|cats|] == cats;
  }

  /** The outer loop of the resolution, over the legend's `label_map`. The same
      annotation may occur twice; resolving it again changes nothing. */
  method ResolveCategories(labelMap: seq<Annotation>, cats: seq<Category>)
    modifies set a | a in labelMap
    ensures forall a :: a in labelMap ==> (a.id == old(a.id) && a.categoryId == old(a.categoryId) &&
      a.categoryName == Resolution(cats, a.categoryId, old(a.categoryName)))
  {
    for i := 0 to |labelMap|
      invariant forall a :: a in labelMap ==> a.id == old(a.id) && a.categoryId == old(a.categoryId)
      invariant forall a :: a in labelMap[..i] ==>
        a.categoryName == Resolution(cats, a.categoryId, old(a.categoryName))
      invariant forall a :: a in labelMap && a !in labelMap[..i] ==> a.categoryName == old(a.categoryName)
    {
      var a := labelMap[i];
      ResolutionIdempotent(cats, a.categoryId, old(a.categoryName));
      ResolveOne(a, cats);
      assert labelMap[..i + 1] == labelMap[..i] + [a];
    }
    assert labelMap[..|labelMap|] == labelMap;
  }

  /** `save_class_legend` without the file write. The first selected labelset
      gives the categories (an index error when none is selected); a label
      without a status is a key error; otherwise the legend's `label_map` is the
      label's own annotation list, whose annotations get their category names. */
  method SaveClassLegend(ds: Dataset, lbl: Label, names: Names) returns (res: Result<Legend>)
    modifies set a | a in lbl.annotations
    ensures LegendCategories(ds.tasks, names).Err? ==> res == Err(IndexError)
    ensures LegendCategories(ds.tasks, names).Ok? && lbl.labelStatus.None? ==> res == Err(KeyError)
    ensures res.Err? ==> unchanged(set a | a in lbl.annotations)
    ensures LegendCategories(ds.tasks, names).Ok? && lbl.labelStatus.Some? ==>
      res == Ok(Legend(FormatVersion, lbl.uuid, lbl.labelStatus.value, lbl.annotations)) &&
      forall a :: a in lbl.annotations ==> (a.id == old(a.id) && a.categoryId == old(a.categoryId) &&
        a.categoryName == Resolution(LegendCategories(ds.tasks, names).value, a.categoryId, old(a.categoryName)))
  {
    var selected := FilterLabelsets(ds.tasks, names);
    if selected == [] {
      return Err(IndexError);
    }
    var categories := selected[0].categories;
    if lbl.labelStatus.None? {
      return Err(KeyError);
    }
    var legend := Legend(FormatVersion, lbl.uuid, lbl.labelStatus.value, lbl.annotations);
    ResolveCategories(legend.labelMap, categories);
    res := Ok(legend);
  }

  // ---------------------------------------------------------------- staleness

  /** A label is skipped when the tile already has a mask that is at least as
      recent as the label's last update. */
  predicate UpToDate(modified: Option<int>, updatedAt: int)
  {
    modified.Some? && modified.value >= updatedAt
  }

  // ---------------------------------------------------------------- samples

  /** `filter_samples` as written: its first statement reads `name`, which is
      not defined, so every call raises a name error. */
  function FilterSamplesAsWritten(samples: seq<Sample>, names: Names): Result<seq<Sample>>
  {
    Err(NameError)
  }

  /** `filter_samples` as evidently intended: `filter_labelsets` for samples. */
  method FilterSamples(samples: seq<Sample>, names: Names) returns (r: seq<Sample>)
    ensures r == ByName(samples, SampleName, names)
    ensures names.NoNames? ==> r == samples
  {
    r := FilterByName(samples, SampleName, names);
  }

  /** With no names the intended filter returns every sample, but the method as
      written fails on every input, this one included. */
  lemma FilterSamplesAsWrittenFails(samples: seq<Sample>)
    ensures FilterSamplesAsWritten(samples, NoNames) == Err(NameError)
    ensures ByName(samples, SampleName, NoNames) == samples
  {
    ByNameAll(samples, SampleName);
  }
}
