/** The completed-task filter: derive a (date, index) pair from the target
    directory's name, keep the `id,name,status` records whose name carries the
    same index and date and whose status is `completed`, and compute for each
    its task id and the path its annotations archive is saved to. */
module ParseFilter {
  import opened Common
  import opened PyStr
  import opened Seqs

  datatype Identifiers = Identifiers(date: string, index: string)

  /** The selected records with, index for index, their task ids and save paths. */
  datatype Selection = Selection(taskList: seq<seq<string>>, taskIds: seq<string>, savePaths: seq<string>)

  /** The last segment of a path without its extension (the text from its
      last `.` on). */
  function Stem(path: string): (r: string)
    ensures '/' !in r
    ensures var seg := AfterLast(path, '/');
      if '.' in seg then seg == r + "." + AfterLast(seg, '.') else r == seg
  {
    var seg := AfterLast(path, '/');
    var r := BeforeLast(seg, '.');
    assert '/' !in r by {
      if '.' in seg {
        assert seg == r + ['.'] + AfterLast(seg, '.');
        assert forall k :: 0 <= k < |r| ==> r[k] == seg[k];
      }
    }
    r
  }

  /** The identifiers a list of `_`-tokens names: the date is the last token,
      the index the one before it, or the only token when there is one. */
  function FromTokens(t: seq<string>): Identifiers
    requires |t| >= 1
  {
    Identifiers(t[|t| - 1], t[if |t| >= 2 then |t| - 2 else 0])
  }

  /** `get_identifiers`: the date is the stem's last `_`-token, the index the
      token just before it (the stem itself when it has no `_`). Never fails. */
  function GetIdentifiers(path: string): (ids: Identifiers)
    ensures '_' !in ids.date && '_' !in ids.index
    ensures var stem := Stem(path);
      |ids.date| <= |stem| && ids.date == stem[|stem| - |ids.date|..]
    ensures ids == FromTokens(Split(Stem(path), '_'))
  {
    StemIdentifiers(Stem(path))
  }

  /** The two `rsplit('_', 1)` steps of `get_identifiers` on the stem. */
  function StemIdentifiers(stem: string): (ids: Identifiers)
    ensures '_' !in ids.date && '_' !in ids.index
    ensures |ids.date| <= |stem| && ids.date == stem[|stem| - |ids.date|..]
    ensures ids == FromTokens(Split(stem, '_'))
  {
    LastTwoTokens(stem, '_');
    Identifiers(AfterLast(stem, '_'), AfterLast(BeforeLast(stem, '_'), '_'))
  }

  /** A directory `<prefix>/<stem><ext>` whose stem is `<x>_<index>_<date>`
      (the extension, if any, starting at a last `.`) yields exactly that
      date and index. */
  lemma IdentifiersRoundTrip(prefix: string, stem: string, ext: string, x: string, index: string, date: string)
    requires stem == x + "_" + index + "_" + date
    requires '/' !in x && '.' !in x
    requires '_' !in index && '/' !in index && '.' !in index
    requires '_' !in date && '/' !in date && '.' !in date
    requires ext == [] || (ext[0] == '.' && '.' !in ext[1..] && '/' !in ext[1..])
    ensures GetIdentifiers(prefix + "/" + stem + ext) == Identifiers(date, index)
  {
    StemRoundTrip(prefix, stem, ext);
    LastPieces(x + "_" + index, date, '_');
    LastPieces(x, index, '_');
  }

  /** The stem of `<prefix>/<stem><ext>` for a stem without `/` or `.`. */
  lemma StemRoundTrip(prefix: string, stem: string, ext: string)
    requires '/' !in stem && '.' !in stem
    requires ext == [] || (ext[0] == '.' && '.' !in ext[1..] && '/' !in ext[1..])
    ensures Stem(prefix + "/" + stem + ext) == stem
  {
    var seg := stem + ext;
    assert '/' !in seg by {
      if ext != [] {
        assert ext == ['.'] + ext[1..];
      }
    }
    assert prefix + "/" + stem + ext == prefix + ['/'] + seg;
    LastPieces(prefix, seg, '/');
    if ext == [] {
      assert seg == stem;
    } else {
      assert seg == stem + ['.'] + ext[1..];
      LastPieces(stem, ext[1..], '.');
    }
  }

  /** A stem without `_` is both the date and the index. */
  lemma IdentifiersWithoutUnderscore(path: string)
    requires '_' !in Stem(path)
    ensures GetIdentifiers(path) == Identifiers(Stem(path), Stem(path))
  {
  }

  /** `check_match_file` on a 3-field record: `_`-token 1 of the name must be
      the index, token 2 the date, and the status `completed`. Python's `and`
      stops at the first false test, so token 2 is only read when token 1
      matched; reading a missing token raises IndexError. */
  function CheckMatchFile(item: seq<string>, date: string, index: string): (r: Result<bool>)
    requires |item| >= 3
    ensures var toks := Split(item[1], '_');
      r.Err? <==> |toks| < 2 || (|toks| == 2 && toks[1] == index)
    ensures r.Err? ==> r.error == IndexError
    ensures var toks := Split(item[1], '_');
      r == Ok(true) <==> |toks| >= 3 && toks[1] == index && toks[2] == date && item[2] == "completed"
  {
    var toks := Split(item[1], '_');
    if |toks| < 2 then Err(IndexError)
    else if toks[1] != index then Ok(false)
    else if |toks| < 3 then Err(IndexError)
    else Ok(toks[2] == date && item[2] == "completed")
  }

  /** A task named `<p>_<index>_<date>...` with status `completed` matches. */
  lemma CheckMatchOfName(id: string, p: string, index: string, date: string, rest: string)
    requires '_' !in p && '_' !in index && '_' !in date
    requires rest == [] || rest[0] == '_'
    ensures CheckMatchFile([id, p + "_" + index + "_" + date + rest, "completed"], date, index) == Ok(true)
  {
    NameTokens(p, index, date, rest);
    DateToken(date, rest);
  }

  /** The first two `_`-tokens of `<p>_<index>_<tail>` are `p` and `index`. */
  lemma NameTokens(p: string, index: string, date: string, rest: string)
    requires '_' !in p && '_' !in index
    ensures Split(p + "_" + index + "_" + date + rest, '_') == [p, index] + Split(date + rest, '_')
  {
    var t := date + rest;
    var u := index + ['_'] + t;
    calc {
      p + "_" + index + "_" + date + rest;
      { Assoc5(p, index, date, rest); }
      p + ['_'] + u;
    }
    SplitHead(p, u, '_');
    SplitHead(index, t, '_');
  }

  lemma Assoc5(p: string, index: string, date: string, rest: string)
    ensures p + "_" + index + "_" + date + rest == p + ['_'] + (index + ['_'] + (date + rest))
  {
  }

  /** A `_`-free date followed by nothing or by `_...` is the first token. */
  lemma DateToken(date: string, rest: string)
    requires '_' !in date
    requires rest == [] || rest[0] == '_'
    ensures Split(date + rest, '_')[0] == date
  {
    if rest == [] {
      assert date + rest == date;
    } else {
      assert date + rest == date + ['_'] + rest[1..];
      SplitHead(date, rest[1..], '_');
    }
  }

  /** `get_tile_folder`: `name.rsplit('_', 3)` without its first piece, joined
      with `_`. In terms of the `_`-tokens of the name: all but the first when
      there are at most four, otherwise the last three. */
  function GetTileFolder(item: seq<string>): (r: string)
    requires |item| >= 2
    ensures var t := Split(item[1], '_');
      r == Join(t[if |t| > 4 then |t| - 3 else 1..], '_')
  {
    var pieces := RSplit(item[1], '_', 3);
    RSplitTokens(item[1], '_', 3);
    Join(pieces[1..], '_')
  }

  /** With at least three `_` the folder is the name's last three tokens. */
  lemma TileFolderLastThree(item: seq<string>)
    requires |item| >= 2 && multiset(item[1])['_'] >= 3
    ensures var t := Split(item[1], '_');
      |t| >= 4 && GetTileFolder(item) == Join(t[|t| - 3..], '_')
  {
    SplitCount(item[1], '_');
  }

  /** Without `_` the folder is empty. */
  lemma TileFolderNoUnderscore(item: seq<string>)
    requires |item| >= 2 && '_' !in item[1]
    ensures GetTileFolder(item) == ""
  {
  }

  /** A name with exactly two `_`, such as `tile_5_20210101`, loses its first
      token: its folder is `5_20210101`, not the whole name. */
  lemma TileFolderTwoUnderscores(id: string, p: string, a: string, b: string, status: string)
    requires '_' !in p && '_' !in a && '_' !in b
    ensures GetTileFolder([id, p + "_" + a + "_" + b, status]) == a + "_" + b
  {
    SplitAround(p + "_" + a, b, '_');
    SplitAround(p, a, '_');
    var t := Split(p + "_" + a + "_" + b, '_');
    assert t == [p, a, b];
    assert t[1..] == [a, b];
    assert [a, b][1..] == [b];
    assert Join([a, b], '_') == a + "_" + b;
  }

  /** `get_task_id`. */
  function GetTaskId(item: seq<string>): string
    requires |item| >= 1
  {
    item[0]
  }

  /** Where the archive of a matched task is saved. */
  function SavePath(directory: string, item: seq<string>): string
    requires |item| >= 2
  {
    directory + "/" + GetTileFolder(item) + "/annotations.zip"
  }

  /** A comma-split record that is kept: 3 fields and a true match. */
  predicate IsCompletedMatch(r: seq<string>, date: string, index: string)
  {
    |r| == 3 && CheckMatchFile(r, date, index) == Ok(true)
  }

  /** A comma-split record on which the match raises IndexError. */
  predicate MatchFails(r: seq<string>, date: string, index: string)
  {
    |r| == 3 && CheckMatchFile(r, date, index).Err?
  }

  /** The records `parse_filter_names` keeps, in input order. */
  function Completed(tasks: seq<string>, date: string, index: string): seq<seq<string>>
    decreases |tasks|
  {
    if tasks == [] then []
    else
      var r := Split(tasks[|tasks| - 1], ',');
      Completed(tasks[..|tasks| - 1], date, index) + (if IsCompletedMatch(r, date, index) then [r] else [])
  }

  /** The same records as a filter over the comma-splits of the input. */
  lemma {:induction false} CompletedIsFilter(tasks: seq<string>, date: string, index: string)
    ensures Completed(tasks, date, index) == Filter(Map(tasks, SplitComma), r => IsCompletedMatch(r, date, index))
    decreases |tasks|
  {
    if tasks != [] {
      var init, x := tasks[..|tasks| - 1], tasks[|tasks| - 1];
      CompletedIsFilter(init, date, index);
      assert tasks == init + [x];
      MapSnoc(init, x, SplitComma);
      FilterSnoc(Map(init, SplitComma), SplitComma(x), r => IsCompletedMatch(r, date, index));
    }
  }

  ghost predicate HasMatchError(tasks: seq<string>, date: string, index: string)
  {
    exists k :: 0 <= k < |tasks| && MatchFails(Split(tasks[k], ','), date, index)
  }

  /** Some record of the prefix makes the match raise, by recursion on the prefix. */
  ghost predicate FailsWithin(tasks: seq<string>, date: string, index: string)
    decreases |tasks|
  {
    tasks != [] &&
    (FailsWithin(tasks[..|tasks| - 1], date, index) || MatchFails(Split(tasks[|tasks| - 1], ','), date, index))
  }

  lemma {:induction false} FailsWithinIff(tasks: seq<string>, date: string, index: string)
    ensures FailsWithin(tasks, date, index) <==> HasMatchError(tasks, date, index)
    decreases |tasks|
  {
    if tasks != [] {
      var init := tasks[..|tasks| - 1];
      FailsWithinIff(init, date, index);
      if HasMatchError(init, date, index) {
        var k :| 0 <= k < |init| && MatchFails(Split(init[k], ','), date, index);
        assert tasks[k] == init[k];
      }
      if HasMatchError(tasks, date, index) && !MatchFails(Split(tasks[|tasks| - 1], ','), date, index) {
        var k :| 0 <= k < |tasks| && MatchFails(Split(tasks[k], ','), date, index);
        assert init[k] == tasks[k];
      }
    }
  }

  lemma CompletedSnoc(tasks: seq<string>, x: string, date: string, index: string)
    ensures Completed(tasks + [x], date, index) ==
      Completed(tasks, date, index) + (if IsCompletedMatch(Split(x, ','), date, index) then [Split(x, ',')] else [])
  {
    assert (tasks + [x])[..|tasks|] == tasks;
  }

  /** The three lists of a selection line up: each id is its record's field 0
      and each path is the save path of its record. */
  ghost predicate Aligned(taskList: seq<seq<string>>, taskIds: seq<string>, paths: seq<string>, directory: string)
  {
    && |taskIds| == |taskList| == |paths|
    && forall k :: 0 <= k < |taskList| ==>
         |taskList[k]| == 3 && taskIds[k] == taskList[k][0] && paths[k] == SavePath(directory, taskList[k])
  }

  lemma AlignedSnoc(taskList: seq<seq<string>>, taskIds: seq<string>, paths: seq<string>, directory: string,
                    item: seq<string>)
    requires Aligned(taskList, taskIds, paths, directory) && |item| == 3
    ensures Aligned(taskList + [item], taskIds + [GetTaskId(item)], paths + [SavePath(directory, item)], directory)
  {
  }

  /** One more input string: the prefix fails iff it failed or the new record
      fails, and the new record is kept iff it matches. */
  lemma PrefixStep(tasks: seq<string>, i: nat, date: string, index: string)
    requires i < |tasks|
    ensures var r := Split(tasks[i], ',');
      && (FailsWithin(tasks[..i + 1], date, index) <==> FailsWithin(tasks[..i], date, index) || MatchFails(r, date, index))
      && Completed(tasks[..i + 1], date, index) ==
           Completed(tasks[..i], date, index) + (if IsCompletedMatch(r, date, index) then [r] else [])
  {
    assert tasks[..i + 1][..i] == tasks[..i];
  }

  /** `parse_filter_names`: the loop over the input strings. It raises
      IndexError as soon as a 3-field record's name is too short for the
      comparison it reaches; otherwise it returns the kept records with
      their task ids and save paths, aligned index for index. */
  method ParseFilterNames(tasks: seq<string>, directory: string, date: string, index: string)
    returns (res: Result<Selection>)
    ensures res.Err? <==> HasMatchError(tasks, date, index)
    ensures res.Err? ==> res.error == IndexError
    ensures res.Ok? ==> res.value.taskList == Completed(tasks, date, index)
    ensures res.Ok? ==> Aligned(res.value.taskList, res.value.taskIds, res.value.savePaths, directory)
  {
    var taskList: seq<seq<string>> := [];
    var taskIds: seq<string> := [];
    var fullPaths: seq<string> := [];
    for i := 0 to |tasks|
      invariant !FailsWithin(tasks[..i], date, index)
      invariant taskList == Completed(tasks[..i], date, index)
      invariant Aligned(taskList, taskIds, fullPaths, directory)
    {
      var item := Split(tasks[i], ',');
      PrefixStep(tasks, i, date, index);
      if |item| == 3 {
        var m := CheckMatchFile(item, date, index);
        if m.Err? {
          assert HasMatchError(tasks, date, index) by {
            assert MatchFails(Split(tasks[i], ','), date, index);
          }
          return Err(m.error);
        }
        if m.value {
          var folder := GetTileFolder(item);
          var taskId := GetTaskId(item);
          var currPath := directory + "/" + folder + "/annotations.zip";
          AlignedSnoc(taskList, taskIds, fullPaths, directory, item);
          taskList := taskList + [item];
          taskIds := taskIds + [taskId];
          fullPaths := fullPaths + [currPath];
        }
      }
    }
    assert tasks[..|tasks|] == tasks;
    FailsWithinIff(tasks, date, index);
    return Ok(Selection(taskList, taskIds, fullPaths));
  }

  /** A record is kept iff it splits into exactly 3 fields that match. */
  lemma CompletedSelects(tasks: seq<string>, date: string, index: string, k: nat)
    requires k < |tasks|
    ensures Split(tasks[k], ',') in Completed(tasks, date, index)
        <==> IsCompletedMatch(Split(tasks[k], ','), date, index)
  {
    CompletedIsFilter(tasks, date, index);
    var recs := Map(tasks, SplitComma);
    assert recs[k] == Split(tasks[k], ',');
  }

  /** Every kept record is the comma-split of an input with 3 fields, the
      status `completed`, and the directory's index and date as name tokens 1
      and 2. */
  lemma CompletedAreMatches(tasks: seq<string>, date: string, index: string, r: seq<string>)
    requires r in Completed(tasks, date, index)
    ensures exists k :: 0 <= k < |tasks| && Split(tasks[k], ',') == r
    ensures |r| == 3 && r[2] == "completed"
    ensures var toks := Split(r[1], '_'); |toks| >= 3 && toks[1] == index && toks[2] == date
  {
    CompletedIsFilter(tasks, date, index);
    var recs := Map(tasks, SplitComma);
    var i :| 0 <= i < |recs| && recs[i] == r;
    assert Split(tasks[i], ',') == r;
  }

  /** Selection is order preserving: it distributes over concatenation. */
  lemma CompletedConcat(a: seq<string>, b: seq<string>, date: string, index: string)
    ensures Completed(a + b, date, index) == Completed(a, date, index) + Completed(b, date, index)
  {
    CompletedIsFilter(a, date, index);
    CompletedIsFilter(b, date, index);
    CompletedIsFilter(a + b, date, index);
    MapConcat(a, b, SplitComma);
    FilterConcat(Map(a, SplitComma), Map(b, SplitComma), r => IsCompletedMatch(r, date, index));
  }

  /** A task named after the directory is selected: the two halves of the
      script agree on where the index and the date sit. */
  lemma DirectoryTaskAgree(prefix: string, stem: string, x: string, id: string, p: string,
                           index: string, date: string, rest: string)
    requires stem == x + "_" + index + "_" + date
    requires '/' !in x && '.' !in x && '_' !in p
    requires '_' !in index && '/' !in index && '.' !in index
    requires '_' !in date && '/' !in date && '.' !in date
    requires rest == [] || rest[0] == '_'
    ensures var ids := GetIdentifiers(prefix + "/" + stem);
      CheckMatchFile([id, p + "_" + index + "_" + date + rest, "completed"], ids.date, ids.index) == Ok(true)
  {
    IdentifiersRoundTrip(prefix, stem, "", x, index, date);
    assert prefix + "/" + stem + "" == prefix + "/" + stem;
    CheckMatchOfName(id, p, index, date, rest);
  }
}
