/** The few Python `str` operations the scripts rely on, for a one-character
    separator: `s.split(c)`, `c.join(parts)` and `s.rsplit(c, n)`. */
module PyStr {

  /** `s.split(c)`: the pieces between the occurrences of `c`; there is
      always one more piece than there are separators. */
  function Split(s: string, c: char): (r: seq<string>)
    ensures |r| >= 1
    ensures forall k :: 0 <= k < |r| ==> c !in r[k]
    ensures c !in s ==> r == [s]
    decreases |s|
  {
    if s == [] then [""]
    else
      assert s == [s[0]] + s[1..];
      var rest := Split(s[1..], c);
      if s[0] == c then [""] + rest
      else [[s[0]] + rest[0]] + rest[1..]
  }

  /** There is one more piece than there are occurrences of `c`. */
  lemma {:induction false} SplitCount(s: string, c: char)
    ensures |Split(s, c)| == multiset(s)[c] + 1
    decreases |s|
  {
    if s != [] {
      SplitCount(s[1..], c);
      assert s == [s[0]] + s[1..];
      assert multiset(s) == multiset([s[0]]) + multiset(s[1..]);
    }
  }

  /** `c.join(parts)`: the pieces with one `c` between neighbours. */
  function Join(parts: seq<string>, c: char): string
    decreases |parts|
  {
    if |parts| == 0 then ""
    else if |parts| == 1 then parts[0]
    else parts[0] + [c] + Join(parts[1..], c)
  }

  /** Appending a piece appends a separator and the piece. */
  lemma {:induction false} JoinSnoc(parts: seq<string>, x: string, c: char)
    requires |parts| >= 1
    ensures Join(parts + [x], c) == Join(parts, c) + [c] + x
    decreases |parts|
  {
    if |parts| == 1 {
      assert (parts + [x])[1..] == [x];
    } else {
      assert (parts + [x])[1..] == parts[1..] + [x];
      JoinSnoc(parts[1..], x, c);
    }
  }

  /** A separator splits the text into the pieces on its two sides. */
  lemma {:induction false} SplitAround(a: string, b: string, c: char)
    ensures Split(a + [c] + b, c) == Split(a, c) + Split(b, c)
    decreases |a|
  {
    if a == [] {
      assert a + [c] + b == [c] + b;
      assert ([c] + b)[1..] == b;
    } else {
      var s := a + [c] + b;
      assert s[1..] == a[1..] + [c] + b;
      SplitAround(a[1..], b, c);
    }
  }

  /** A separator-free head is the first piece. */
  lemma SplitHead(a: string, b: string, c: char)
    requires c !in a
    ensures Split(a + [c] + b, c) == [a] + Split(b, c)
  {
    SplitAround(a, b, c);
  }

  /** Joining the pieces of a split gives the text back. */
  lemma {:induction false} JoinSplit(s: string, c: char)
    ensures Join(Split(s, c), c) == s
    decreases |s|
  {
    if s != [] {
      JoinSplit(s[1..], c);
      var rest := Split(s[1..], c);
      if s[0] == c {
        assert s == [c] + s[1..];
        assert ([""] + rest)[1..] == rest;
      } else if |rest| == 1 {
        assert s == [s[0]] + s[1..];
      } else {
        assert ([[s[0]] + rest[0]] + rest[1..])[1..] == rest[1..];
        assert s == [s[0]] + s[1..];
      }
    }
  }

  /** Splitting a join of separator-free pieces gives the pieces back. */
  lemma {:induction false} SplitJoin(parts: seq<string>, c: char)
    requires |parts| >= 1
    requires forall k :: 0 <= k < |parts| ==> c !in parts[k]
    ensures Split(Join(parts, c), c) == parts
    decreases |parts|
  {
    if |parts| == 1 {
      assert Join(parts, c) == parts[0];
    } else {
      var tail := parts[1..];
      assert forall k :: 0 <= k < |tail| ==> c !in tail[k] by {
        assert forall k :: 0 <= k < |tail| ==> tail[k] == parts[k + 1];
      }
      calc {
        Split(Join(parts, c), c);
        Split(parts[0] + [c] + Join(tail, c), c);
        { SplitAround(parts[0], Join(tail, c), c); }
        Split(parts[0], c) + Split(Join(tail, c), c);
        { SplitJoin(tail, c); }
        [parts[0]] + tail;
        parts;
      }
    }
  }

  /** `s.split(",")` and `",".join(r)`, the record format of task-list files. */
  function SplitComma(s: string): seq<string>
  {
    Split(s, ',')
  }

  function JoinComma(r: seq<string>): string
  {
    Join(r, ',')
  }

  /** The position of the last `c` in `s`, or -1 when there is none. */
  function LastIndex(s: string, c: char): (r: int)
    ensures -1 <= r < |s|
    ensures r >= 0 ==> s[r] == c
    ensures forall k :: r < k < |s| ==> s[k] != c
    decreases |s|
  {
    if s == [] then -1
    else if s[|s| - 1] == c then |s| - 1
    else LastIndex(s[..|s| - 1], c)
  }

  /** `s.rsplit(c, maxsplit)`: split at the last `maxsplit` separators only. The
      contract determines the result: joining it gives `s` back, no piece but
      the first contains `c`, and the first is free of `c` too unless all
      `maxsplit` splits were made. */
  function RSplit(s: string, c: char, maxsplit: nat): (r: seq<string>)
    ensures 1 <= |r| <= maxsplit + 1
    ensures Join(r, c) == s
    ensures forall k :: 1 <= k < |r| ==> c !in r[k]
    ensures |r| <= maxsplit ==> c !in r[0]
    decreases maxsplit
  {
    var i := LastIndex(s, c);
    if maxsplit == 0 || i < 0 then [s]
    else
      var init := RSplit(s[..i], c, maxsplit - 1);
      RSplitSnoc(s, c, i, init);
      init + [s[i + 1..]]
  }

  /** The pieces before the last separator, then the piece after it, join back
      to the whole text, and the new last piece has no separator. */
  lemma RSplitSnoc(s: string, c: char, i: int, init: seq<string>)
    requires i == LastIndex(s, c) && i >= 0
    requires |init| >= 1 && Join(init, c) == s[..i]
    ensures Join(init + [s[i + 1..]], c) == s
    ensures c !in s[i + 1..]
    ensures (init + [s[i + 1..]])[0] == init[0]
    ensures forall k :: 0 <= k < |init| ==> (init + [s[i + 1..]])[k] == init[k]
  {
    JoinSnoc(init, s[i + 1..], c);
    SliceAround(s, i);
    AfterLastFree(s, c, i);
  }

  lemma AfterLastFree(s: string, c: char, i: int)
    requires i == LastIndex(s, c) && i >= 0
    ensures c !in s[i + 1..]
  {
    var b := s[i + 1..];
    assert forall k :: 0 <= k < |b| ==> b[k] == s[i + 1 + k];
  }

  lemma SliceAround<T>(s: seq<T>, i: nat)
    requires i < |s|
    ensures s == s[..i] + [s[i]] + s[i + 1..]
  {
    assert s[..i] + [s[i]] == s[..i + 1];
    assert s[..i + 1] + s[i + 1..] == s;
  }

  /** When `c` occurs last at the separator between `a` and `b`, that is where
      the last split happens. */
  lemma LastIndexAround(a: string, b: string, c: char)
    requires c !in b
    ensures LastIndex(a + [c] + b, c) == |a|
  {
    var s := a + [c] + b;
    assert s[|a|] == c;
  }

  /** The tokens of a split regrouped as `rsplit(c, n)` groups them: the last
      `n` stay separate and the ones before them are joined back together. */
  function RGroup(t: seq<string>, c: char, n: nat): seq<string>
    requires |t| >= 1
  {
    if |t| <= n + 1 then t else [Join(t[..|t| - n], c)] + t[|t| - n..]
  }

  /** `s.rsplit(c, n)` in terms of `s.split(c)`. */
  lemma {:induction false} RSplitTokens(s: string, c: char, n: nat)
    ensures RSplit(s, c, n) == RGroup(Split(s, c), c, n)
    decreases n
  {
    var i := LastIndex(s, c);
    if n == 0 {
      RGroupZero(s, c);
    } else if i < 0 {
      RGroupNone(s, c, n);
    } else {
      RSplitTokens(s[..i], c, n - 1);
      RSplitStep(s, c, n, i);
    }
  }

  lemma RSplitStep(s: string, c: char, n: nat, i: int)
    requires n > 0 && i == LastIndex(s, c) && i >= 0
    requires RSplit(s[..i], c, n - 1) == RGroup(Split(s[..i], c), c, n - 1)
    ensures RSplit(s, c, n) == RGroup(Split(s, c), c, n)
  {
    var a, b := s[..i], s[i + 1..];
    assert RSplit(s, c, n) == RSplit(a, c, n - 1) + [b];
    SplitAtLast(s, c, i);
    RGroupSnoc(Split(a, c), b, c, n);
  }

  lemma RGroupNone(s: string, c: char, n: nat)
    requires LastIndex(s, c) < 0
    ensures RSplit(s, c, n) == RGroup(Split(s, c), c, n)
  {
    assert c !in s;
  }

  lemma RGroupZero(s: string, c: char)
    ensures RSplit(s, c, 0) == RGroup(Split(s, c), c, 0)
  {
    var t := Split(s, c);
    JoinSplit(s, c);
    if |t| == 1 {
      assert Join(t, c) == t[0];
    } else {
      assert t[..|t|] == t && t[|t|..] == [];
    }
  }

  /** The last separator splits off the last token. */
  lemma SplitAtLast(s: string, c: char, i: int)
    requires i == LastIndex(s, c) && i >= 0
    ensures Split(s, c) == Split(s[..i], c) + [s[i + 1..]]
  {
    var a, b := s[..i], s[i + 1..];
    assert s == a + [c] + b;
    SplitAround(a, b, c);
    assert c !in b;
  }

  lemma RGroupSnoc(ta: seq<string>, b: string, c: char, n: nat)
    requires |ta| >= 1 && n > 0
    ensures RGroup(ta + [b], c, n) == RGroup(ta, c, n - 1) + [b]
  {
    if |ta| > n {
      var t := ta + [b];
      assert t[..|t| - n] == ta[..|ta| - (n - 1)];
      assert t[|t| - n..] == ta[|ta| - (n - 1)..] + [b];
    }
  }

  /** `s.rsplit(c, 1)[-1]`: the text after the last `c`, or all of `s`. */
  function AfterLast(s: string, c: char): (r: string)
    ensures c !in r
    ensures |r| <= |s| && r == s[|s| - |r|..]
    ensures c in s ==> |r| < |s| && s[|s| - |r| - 1] == c
    ensures c !in s ==> r == s
  {
    var p := RSplit(s, c, 1);
    if |p| == 1 then p[0]
    else
      assert s == p[0] + [c] + p[1];
      p[1]
  }

  /** `s.rsplit(c, 1)[0]`: the text before the last `c`, or all of `s`. */
  function BeforeLast(s: string, c: char): (r: string)
    ensures c !in s ==> r == s
    ensures c in s ==> s == r + [c] + AfterLast(s, c)
  {
    var p := RSplit(s, c, 1);
    if |p| == 2 then assert s == p[0] + [c] + p[1]; p[0] else p[0]
  }

  /** Splitting at a separator followed by separator-free text isolates that text. */
  lemma {:induction false} LastPieces(a: string, b: string, c: char)
    requires c !in b
    ensures AfterLast(a + [c] + b, c) == b
    ensures BeforeLast(a + [c] + b, c) == a
  {
    var s := a + [c] + b;
    LastIndexAround(a, b, c);
    assert s[..|a|] == a && s[|a| + 1..] == b;
  }

  /** `rsplit(c, 1)[-1]` is the last token of `split(c)`. */
  lemma {:induction false} AfterLastToken(s: string, c: char)
    ensures var t := Split(s, c); AfterLast(s, c) == t[|t| - 1]
  {
    var i := LastIndex(s, c);
    if i >= 0 {
      LastSeparator(s, c, i);
    }
  }

  /** When `c` occurs, `rsplit(c, 1)[0]` splits into all tokens but the last. */
  lemma {:induction false} BeforeLastTokens(s: string, c: char)
    requires c in s
    ensures var t := Split(s, c); |t| >= 2 && Split(BeforeLast(s, c), c) == t[..|t| - 1]
  {
    var i := LastIndex(s, c);
    LastSeparator(s, c, i);
  }

  /** The last separator of `s` is where `rsplit(c, 1)` and `split(c)` cut off
      the last piece. */
  lemma {:induction false} LastSeparator(s: string, c: char, i: int)
    requires i == LastIndex(s, c) && i >= 0
    ensures AfterLast(s, c) == s[i + 1..] && BeforeLast(s, c) == s[..i]
    ensures Split(s, c) == Split(s[..i], c) + [s[i + 1..]]
  {
    SliceAround(s, i);
    AfterLastFree(s, c, i);
    LastPieces(s[..i], s[i + 1..], c);
    SplitAtLast(s, c, i);
  }

  /** The last two tokens of `split(c)` through `rsplit(c, 1)`: the last one is
      `rsplit(c, 1)[-1]`, and the one before it (the only one, when there is
      no `c`) is `rsplit(c, 1)[0].rsplit(c, 1)[-1]`. */
  lemma {:induction false} LastTwoTokens(s: string, c: char)
    ensures var t := Split(s, c);
      AfterLast(s, c) == t[|t| - 1] &&
      AfterLast(BeforeLast(s, c), c) == t[if |t| >= 2 then |t| - 2 else 0]
  {
    AfterLastToken(s, c);
    var i := LastIndex(s, c);
    if i >= 0 {
      LastSeparator(s, c, i);
      TokenBeforeLast(s, c, i);
      AfterLastToken(s[..i], c);
    } else {
      assert c !in s;
      assert Split(s, c) == [s] && BeforeLast(s, c) == s;
    }
  }

  /** The token before the last one of `split(c)` is the last token of the
      text before the last `c`. */
  lemma {:induction false} TokenBeforeLast(s: string, c: char, i: int)
    requires i == LastIndex(s, c) && i >= 0
    ensures var t, u := Split(s, c), Split(s[..i], c);
      |t| >= 2 && u[|u| - 1] == t[|t| - 2]
  {
    SplitAtLast(s, c, i);
    LastOfPrefix(Split(s, c), Split(s[..i], c));
  }

  lemma LastOfPrefix<T>(t: seq<T>, u: seq<T>)
    requires |t| >= 2 && u == t[..|t| - 1]
    ensures u[|u| - 1] == t[|t| - 2]
  {
  }

}
