/** The text both task filters write to their output file: one line per
    selected record, every field followed by a comma, then a newline. The
    file itself is not modelled; its contents are the returned string. */
module TaskFile {
  import opened PyStr
  import opened Seqs

  /** Every field of a record followed by `,`. */
  function Fields(r: seq<string>): string
    decreases |r|
  {
    if r == [] then "" else Fields(r[..|r| - 1]) + r[|r| - 1] + ","
  }

  /** One output line: the fields, each followed by `,`, then a newline. */
  function Line(r: seq<string>): string
  {
    Fields(r) + "\n"
  }

  /** The whole output: the lines of the records in order. */
  function Render(rs: seq<seq<string>>): string
    decreases |rs|
  {
    if rs == [] then "" else Render(rs[..|rs| - 1]) + Line(rs[|rs| - 1])
  }

  /** The writer loop: for each record, each field then `,`; then `\n`. */
  method WriteTaskList(tasks: seq<seq<string>>) returns (text: string)
    ensures text == Render(tasks)
  {
    text := "";
    for i := 0 to |tasks|
      invariant text == Render(tasks[..i])
    {
      var task := tasks[i];
      ghost var head := text;
      for j := 0 to |task|
        invariant text == head + Fields(task[..j])
      {
        FieldsStep(task, j);
        AppendField(head, Fields(task[..j]), task[j]);
        text := text + task[j];
        text := text + ",";
      }
      assert task[..|task|] == task;
      RenderStep(tasks, i);
      text := text + "\n";
    }
    assert tasks[..|tasks|] == tasks;
  }

  lemma AppendField(head: string, f: string, y: string)
    ensures head + (f + y + ",") == head + f + y + ","
  {
  }

  lemma FieldsStep(r: seq<string>, j: nat)
    requires j < |r|
    ensures Fields(r[..j + 1]) == Fields(r[..j]) + r[j] + ","
  {
    assert r[..j + 1][..j] == r[..j];
  }

  lemma RenderStep(rs: seq<seq<string>>, i: nat)
    requires i < |rs|
    ensures Render(rs[..i + 1]) == Render(rs[..i]) + Fields(rs[i]) + "\n"
  {
    assert rs[..i + 1][..i] == rs[..i];
  }

  ghost predicate FreeOf(r: seq<string>, c: char)
  {
    forall k :: 0 <= k < |r| ==> c !in r[k]
  }

  /** Splitting the written fields on `,` recovers them, followed by whatever
      comes after the last comma. */
  lemma {:induction false} SplitFieldsThen(r: seq<string>, x: string)
    requires FreeOf(r, ',') && ',' !in x
    ensures Split(Fields(r) + x, ',') == r + [x]
    decreases |r|
  {
    if r == [] {
      assert Fields(r) + x == x;
    } else {
      var r', y := r[..|r| - 1], r[|r| - 1];
      var a := Fields(r') + y;
      assert FreeOf(r', ',') && ',' !in y by {
        assert forall k :: 0 <= k < |r'| ==> r'[k] == r[k];
      }
      calc {
        Split(Fields(r) + x, ',');
        { assert Fields(r) + x == a + [','] + x; }
        Split(a + [','] + x, ',');
        { SplitAround(a, x, ','); }
        Split(a, ',') + Split(x, ',');
        { SplitFieldsThen(r', y); }
        r' + [y] + [x];
        { assert r == r' + [y]; }
        r + [x];
      }
    }
  }

  /** A written line of comma-free fields splits on `,` into those fields plus
      a final piece holding only the newline: one field more than the record. */
  lemma LineSplit(r: seq<string>)
    requires FreeOf(r, ',')
    ensures Split(Line(r), ',') == r + ["\n"]
    ensures |Split(Line(r), ',')| == |r| + 1
  {
    SplitFieldsThen(r, "\n");
  }

  lemma {:induction false} FieldsFreeOf(r: seq<string>, c: char)
    requires FreeOf(r, c) && c != ','
    ensures c !in Fields(r)
    decreases |r|
  {
    if r != [] {
      FieldsFreeOf(r[..|r| - 1], c);
    }
  }

  /** Splitting the output on newlines gives one line per record, in order. */
  lemma {:induction false} SplitRenderThen(rs: seq<seq<string>>, x: string)
    requires forall k :: 0 <= k < |rs| ==> FreeOf(rs[k], '\n')
    requires '\n' !in x
    ensures Split(Render(rs) + x, '\n') == Map(rs, Fields) + [x]
    decreases |rs|
  {
    if rs == [] {
      assert Render(rs) + x == x;
    } else {
      var rs', r := rs[..|rs| - 1], rs[|rs| - 1];
      var a := Render(rs') + Fields(r);
      assert forall k :: 0 <= k < |rs'| ==> FreeOf(rs'[k], '\n') by {
        assert forall k :: 0 <= k < |rs'| ==> rs'[k] == rs[k];
      }
      FieldsFreeOf(r, '\n');
      calc {
        Split(Render(rs) + x, '\n');
        { RenderAround(rs, x); }
        Split(a + ['\n'] + x, '\n');
        { SplitAround(a, x, '\n'); }
        Split(a, '\n') + Split(x, '\n');
        { SplitRenderThen(rs', Fields(r)); }
        Map(rs', Fields) + [Fields(r)] + [x];
        { assert rs == rs' + [r]; MapSnoc(rs', r, Fields); }
        Map(rs, Fields) + [x];
      }
    }
  }

  lemma RenderAround(rs: seq<seq<string>>, x: string)
    requires rs != []
    ensures Render(rs) + x == Render(rs[..|rs| - 1]) + Fields(rs[|rs| - 1]) + ['\n'] + x
  {
  }

  /** The written file holds exactly one line per record, in the records' order,
      and ends with a newline. */
  lemma RenderLines(rs: seq<seq<string>>)
    requires forall k :: 0 <= k < |rs| ==> FreeOf(rs[k], '\n')
    ensures Split(Render(rs), '\n') == Map(rs, Fields) + [""]
  {
    SplitRenderThen(rs, "");
    assert Render(rs) + "" == Render(rs);
  }
}
