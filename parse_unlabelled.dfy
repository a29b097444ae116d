/** The unlabelled-task filter: keep the `id,name,status` records whose status
    is exactly `annotation`, and write them out one per line. */
module ParseUnlabelled {
  import opened PyStr
  import opened Seqs
  import TaskFile

  /** `check_status`: field 2 is exactly `annotation`. */
  predicate CheckStatus(item: seq<string>)
    requires |item| >= 3
  {
    item[2] == "annotation"
  }

  /** A comma-split record that is kept: 3 fields and the status `annotation`. */
  predicate IsUnlabelled(r: seq<string>)
  {
    |r| == 3 && CheckStatus(r)
  }

  /** The records `parse_filter_unlabelled` keeps, in input order. */
  function Unlabelled(tasks: seq<string>): seq<seq<string>>
    decreases |tasks|
  {
    if tasks == [] then []
    else
      var r := Split(tasks[|tasks| - 1], ',');
      Unlabelled(tasks[..|tasks| - 1]) + (if IsUnlabelled(r) then [r] else [])
  }

  /** The same records as a filter over the comma-splits of the input. */
  lemma {:induction false} UnlabelledIsFilter(tasks: seq<string>)
    ensures Unlabelled(tasks) == Filter(Map(tasks, SplitComma), IsUnlabelled)
    decreases |tasks|
  {
    if tasks != [] {
      var init, x := tasks[..|tasks| - 1], tasks[|tasks| - 1];
      UnlabelledIsFilter(init);
      assert tasks == init + [x];
      MapSnoc(init, x, SplitComma);
      FilterSnoc(Map(init, SplitComma), SplitComma(x), IsUnlabelled);
    }
  }

  /** `parse_filter_unlabelled`: the loop over the input strings. */
  method ParseFilterUnlabelled(tasks: seq<string>) returns (taskList: seq<seq<string>>)
    ensures taskList == Unlabelled(tasks)
    ensures forall k :: 0 <= k < |taskList| ==> |taskList[k]| == 3 && taskList[k][2] == "annotation"
  {
    taskList := [];
    for i := 0 to |tasks|
      invariant taskList == Unlabelled(tasks[..i])
      invariant forall k :: 0 <= k < |taskList| ==> IsUnlabelled(taskList[k])
    {
      var item := Split(tasks[i], ',');
      if |item| == 3 {
        if CheckStatus(item) {
          taskList := taskList + [item];
        }
      }
      assert tasks[..i + 1][..i] == tasks[..i];
    }
    assert tasks[..|tasks|] == tasks;
  }

  /** A record is kept iff it splits into exactly 3 fields with status `annotation`. */
  lemma UnlabelledSelects(tasks: seq<string>, k: nat)
    requires k < |tasks|
    ensures Split(tasks[k], ',') in Unlabelled(tasks) <==> IsUnlabelled(Split(tasks[k], ','))
  {
    UnlabelledIsFilter(tasks);
    assert Map(tasks, SplitComma)[k] == Split(tasks[k], ',');
  }

  /** Every kept record has 3 fields, the status `annotation`, and is the
      comma-split of an input string. */
  lemma {:induction false} UnlabelledFromInput(tasks: seq<string>, r: seq<string>)
    requires r in Unlabelled(tasks)
    ensures |r| == 3 && r[2] == "annotation"
    ensures exists k :: 0 <= k < |tasks| && Split(tasks[k], ',') == r
    decreases |tasks|
  {
    var init := tasks[..|tasks| - 1];
    if r in Unlabelled(init) {
      UnlabelledFromInput(init, r);
      var k :| 0 <= k < |init| && Split(init[k], ',') == r;
      assert tasks[k] == init[k];
    } else {
      assert Split(tasks[|tasks| - 1], ',') == r;
    }
  }

  /** Selection is order preserving: it distributes over concatenation. */
  lemma {:induction false} UnlabelledConcat(a: seq<string>, b: seq<string>)
    ensures Unlabelled(a + b) == Unlabelled(a) + Unlabelled(b)
    decreases |b|
  {
    if b == [] {
      assert a + b == a;
    } else {
      var b', x := b[..|b| - 1], b[|b| - 1];
      assert (a + b)[..|a + b| - 1] == a + b';
      UnlabelledConcat(a, b');
    }
  }

  /** Joining kept records with `,` and filtering them again keeps them all:
      the fields of a comma-split contain no comma, so the split undoes the join. */
  lemma {:induction false} RefilterJoined(rs: seq<seq<string>>)
    requires forall k :: 0 <= k < |rs| ==> IsUnlabelled(rs[k]) && TaskFile.FreeOf(rs[k], ',')
    ensures Unlabelled(Map(rs, JoinComma)) == rs
    decreases |rs|
  {
    if rs != [] {
      var init, r := rs[..|rs| - 1], rs[|rs| - 1];
      RefilterJoined(init);
      SplitJoin(r, ',');
      assert rs == init + [r];
      MapSnoc(init, r, JoinComma);
      assert Map(rs, JoinComma)[..|rs| - 1] == Map(init, JoinComma);
    }
  }

  /** Idempotence: joining the kept records with `,` and filtering again gives
      the same list. */
  lemma UnlabelledIdempotent(tasks: seq<string>)
    ensures Unlabelled(Map(Unlabelled(tasks), JoinComma)) == Unlabelled(tasks)
  {
    var kept := Unlabelled(tasks);
    forall k | 0 <= k < |kept|
      ensures IsUnlabelled(kept[k]) && TaskFile.FreeOf(kept[k], ',')
    {
      UnlabelledFromInput(tasks, kept[k]);
    }
    RefilterJoined(kept);
  }

  /** The written form is not read back: a written line of a kept record
      splits into 4 fields (the last one the newline), so the 3-field filter
      drops it. */
  lemma WrittenLineRejected(tasks: seq<string>, r: seq<string>)
    requires r in Unlabelled(tasks)
    ensures Split(TaskFile.Line(r), ',') == r + ["\n"]
    ensures Unlabelled([TaskFile.Line(r)]) == []
  {
    UnlabelledFromInput(tasks, r);
    TaskFile.LineSplit(r);
    assert [TaskFile.Line(r)][..0] == [];
  }
}
