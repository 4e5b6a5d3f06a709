/** A server's output, cut into lines and kept as a tail while it streams in (electron/api-wait.js). */
module ServerOutput {

  const MAX_PARTIAL: nat := 65536

  /** `slice(-max)`: the last `max` characters, and all of them when `max` is 0. */
  function Slice(s: string, max: nat): string {
    if max == 0 || |s| <= max then s else s[|s| - max..]
  }

  function Concat(chunks: seq<string>): string {
    if chunks == [] then "" else Concat(chunks[..|chunks| - 1]) + chunks[|chunks| - 1]
  }

  /** The first line break of `s`. */
  function Break(s: string): (k: nat)
    requires '\n' in s
    ensures k < |s| && s[k] == '\n' && forall i :: 0 <= i < k ==> s[i] != '\n'
  {
    if s[0] == '\n' then 0 else
      assert s == [s[0]] + s[1..];
      1 + Break(s[1..])
  }

  /** A line without the carriage return that belongs to its line break. */
  function Chomp(s: string): string {
    if s != "" && s[|s| - 1] == '\r' then s[..|s| - 1] else s
  }

  /** `split(/\r?\n/)`: every line, the last one being whatever follows the last break. */
  function Split(s: string): (lines: seq<string>)
    ensures lines != []
    decreases |s|
  {
    if '\n' !in s then [s] else [Chomp(s[..Break(s)])] + Split(s[Break(s) + 1..])
  }

  function Init(lines: seq<string>): seq<string>
    requires lines != []
  {
    lines[..|lines| - 1]
  }

  function Last(lines: seq<string>): string
    requires lines != []
  {
    lines[|lines| - 1]
  }

  // --- The splitter ----------------------------------------------------------------------------------

  datatype Splitting = Splitting(handed: seq<string>, partial: string) {
    /** The lines handed on, and the one still coming in. */
    function Pieces(): seq<string> { handed + [partial] }
  }

  function Feed(s: Splitting, chunk: string): Splitting {
    var lines := Split(s.partial + chunk);
    Splitting(s.handed + Init(lines), Slice(Last(lines), MAX_PARTIAL))
  }

  function Fed(chunks: seq<string>): Splitting {
    if chunks == [] then Splitting([], "") else Feed(Fed(chunks[..|chunks| - 1]), chunks[|chunks| - 1])
  }

  /** A text with a break is a first line, the break, and the rest. */
  lemma FirstLine(line: string, rest: string)
    requires '\n' !in line
    ensures Split(line + "\n" + rest) == [Chomp(line)] + Split(rest)
  {
    var s := line + "\n" + rest;
    var k, n := Break(s), |line|;
    assert s[n] == '\n';
    assert forall i :: 0 <= i < n ==> s[i] == line[i];
    assert s[..k] == line && s[k + 1..] == rest;
  }

  lemma Parts(s: string) returns (line: string, rest: string)
    requires '\n' in s
    ensures s == line + "\n" + rest && '\n' !in line && |rest| < |s|
  {
    var k := Break(s);
    line, rest := s[..k], s[k + 1..];
    assert s == s[..k] + [s[k]] + s[k + 1..];
  }

  /** Splitting a longer text: the last line so far goes on, its trailing carriage return included. */
  lemma {:induction false} SplitGoesOn(a: string, b: string)
    ensures Split(a + b) == Init(Split(a)) + Split(Last(Split(a)) + b)
    decreases |a|
  {
    if '\n' in a {
      var line, rest := Parts(a);
      SplitGoesOn(rest, b);
      SplitAfter(line, rest, b);
    } else {
      assert Init([a]) == [];
    }
  }

  lemma SplitAfter(line: string, rest: string, b: string)
    requires '\n' !in line && Split(rest + b) == Init(Split(rest)) + Split(Last(Split(rest)) + b)
    ensures var a := line + "\n" + rest; Split(a + b) == Init(Split(a)) + Split(Last(Split(a)) + b)
  {
    FirstLine(line, rest);
    FirstLine(line, rest + b);
    FurtherOn(line, rest, b);
    OneLineAhead(Chomp(line), Split(rest), Split(Last(Split(rest)) + b));
  }

  lemma FurtherOn(line: string, rest: string, b: string)
    ensures (line + "\n" + rest) + b == line + "\n" + (rest + b)
  {
  }

  lemma OneLineAhead(first: string, more: seq<string>, last: seq<string>)
    requires more != []
    ensures [first] + (Init(more) + last) == Init([first] + more) + last && Last([first] + more) == Last(more)
  {
  }

  /** A line ends at \n, or at \r\n, and neither is part of it; a \r anywhere else is. */
  lemma LineEndsAtBreak(line: string, rest: string)
    requires '\n' !in line && (line == "" || line[|line| - 1] != '\r')
    ensures Split(line + "\n" + rest) == [line] + Split(rest)
  {
    FirstLine(line, rest);
  }

  lemma LineEndsAtReturn(line: string, rest: string)
    requires '\n' !in line
    ensures Split((line + "\r") + "\n" + rest) == [line] + Split(rest)
  {
    ReturnIsChomped(line);
    FirstLine(line + "\r", rest);
  }

  lemma ReturnIsChomped(line: string)
    ensures Chomp(line + "\r") == line
  {
    assert (line + "\r")[..|line|] == line;
  }

  predicate Suffix(s: string, t: string) { |s| <= |t| && t[|t| - |s|..] == s }

  /** The last line has no break in it. */
  lemma {:induction false} LastIsOneLine(s: string)
    ensures '\n' !in Last(Split(s))
    decreases |s|
  {
    if '\n' in s {
      var line, rest := Parts(s);
      FirstLine(line, rest);
      LastIsOneLine(rest);
    }
  }

  lemma ChompsAlike(p: string, w: string)
    requires Suffix(p, w) && (p == "" ==> w == "")
    ensures Suffix(Chomp(p), Chomp(w)) && |Chomp(w)| - |Chomp(p)| == |w| - |p|
  {
    if p != "" {
      assert p[|p| - 1] == w[|w| - |p|..][|p| - 1] == w[|w| - 1];
    }
  }

  /** Some chunk ended with more than MAX_PARTIAL characters of line `k` read and its end still to come. */
  ghost predicate Cut(chunks: seq<string>, k: nat) {
    exists i :: 0 <= i <= |chunks| && CutAfter(chunks, k, i)
  }

  ghost predicate CutAfter(chunks: seq<string>, k: nat, i: nat)
    requires i <= |chunks|
  {
    var lines := Split(Concat(chunks[..i]));
    |lines| == k + 1 && |Last(lines)| > MAX_PARTIAL
  }

  lemma CutEarlier(chunks: seq<string>, k: nat)
    requires chunks != []
    ensures Cut(chunks, k) <==> Cut(chunks[..|chunks| - 1], k) || CutAfter(chunks, k, |chunks|)
  {
    var n := |chunks| - 1;
    assert forall i | 0 <= i <= n :: chunks[..n][..i] == chunks[..i];
    if Cut(chunks[..n], k) {
      var i :| 0 <= i <= n && CutAfter(chunks[..n], k, i);
      assert CutAfter(chunks, k, i);
    }
    if i :| 0 <= i <= |chunks| && CutAfter(chunks, k, i) {
      assert i <= n ==> CutAfter(chunks[..n], k, i);
    }
  }

  lemma {:induction false} NeverFewerLines(chunks: seq<string>, i: nat)
    requires i <= |chunks|
    ensures |Split(Concat(chunks[..i]))| <= |Split(Concat(chunks))|
    decreases |chunks|
  {
    var n := |chunks| - 1;
    if i == |chunks| {
      assert chunks[..i] == chunks;
    } else {
      assert chunks[..n][..i] == chunks[..i];
      NeverFewerLines(chunks[..n], i);
      SplitGoesOn(Concat(chunks[..n]), chunks[n]);
    }
  }

  /** No line after the last one so far can have been cut yet. */
  lemma NotCutYet(chunks: seq<string>, k: nat)
    requires k >= |Split(Concat(chunks))|
    ensures !Cut(chunks, k)
  {
    if i :| 0 <= i <= |chunks| && CutAfter(chunks, k, i) {
      NeverFewerLines(chunks, i);
    }
  }

  /** Line `k` as it was handed on, against line `k` of the text. */
  ghost predicate Alike(got: seq<string>, whole: seq<string>, cut: bool, k: nat) {
    && |got| == |whole|
    && (k < |whole| ==>
          && Suffix(got[k], whole[k])
          && (got[k] == whole[k] <==> !cut)
          && (got[k] == whole[k] || |got[k]| >= MAX_PARTIAL - 1))
  }

  /** The line still coming in keeps at least its last MAX_PARTIAL characters. */
  ghost predicate PartialKept(partial: string, whole: string) {
    Suffix(partial, whole) && (partial == whole || |partial| == MAX_PARTIAL)
  }

  lemma SlicedIsKept(p: string, w: string, c: string)
    requires PartialKept(p, w)
    ensures PartialKept(Slice(p + c, MAX_PARTIAL), w + c)
    ensures Slice(p + c, MAX_PARTIAL) == w + c <==> p == w && |w + c| <= MAX_PARTIAL
  {
    var s := Slice(p + c, MAX_PARTIAL);
    assert (w + c)[|w + c| - |p + c|..] == w[|w| - |p|..] + c;
    assert (p + c)[|p + c| - |s|..] == s;
    assert (w + c)[|w + c| - |s|..] == (w + c)[|w + c| - |p + c|..][|p + c| - |s|..];
  }

  /** A chunk without a break: the line goes on. */
  lemma LineGrows(h: seq<string>, p: string, before: seq<string>, w: string, c: string, cut: bool, k: nat)
    requires Alike(h + [p], before + [w], cut, k) && PartialKept(p, w) && (k > |before| ==> !cut)
    ensures Alike(h + [Slice(p + c, MAX_PARTIAL)], before + [w + c], cut || (k == |before| && |w + c| > MAX_PARTIAL), k)
    ensures PartialKept(Slice(p + c, MAX_PARTIAL), w + c)
  {
    assert (h + [p])[|h|] == p && (before + [w])[|before|] == w;
    SlicedIsKept(p, w, c);
    if k < |h| {
      assert (h + [p])[k] == h[k] && (before + [w])[k] == before[k];
    }
  }

  /** A chunk with a break: the line ends with `x`, and the lines in `more` follow. */
  lemma LineEnds(h: seq<string>, p: string, before: seq<string>, w: string, x: string, more: seq<string>, cut: bool, k: nat)
    requires more != []
    requires Alike(h + [p], before + [w], cut, k) && PartialKept(p, w) && (k > |before| ==> !cut)
    ensures Alike(h + [Chomp(p + x)] + Init(more) + [Slice(Last(more), MAX_PARTIAL)], before + [Chomp(w + x)] + more,
                  cut || (k == |before| + |more| && |Last(more)| > MAX_PARTIAL), k)
  {
    var m := |h|;
    var first, next := h + [Chomp(p + x)], before + [Chomp(w + x)];
    var later := Init(more) + [Slice(Last(more), MAX_PARTIAL)];
    var got, whole := first + later, next + more;
    assert first + Init(more) + [Slice(Last(more), MAX_PARTIAL)] == got;
    if k < m {
      assert (h + [p])[k] == h[k] == got[k] && (before + [w])[k] == before[k] == whole[k];
    } else if k == m {
      assert (h + [p])[m] == p && (before + [w])[m] == w;
      EndsAlike(p, w, x);
      assert got[m] == Chomp(p + x) && whole[m] == Chomp(w + x);
    } else if k < |whole| {
      var j := k - m - 1;
      assert got[k] == later[j] && whole[k] == more[j];
      assert later[j] == (if j < |more| - 1 then more[j] else Slice(Last(more), MAX_PARTIAL));
    }
  }

  lemma EndsAlike(p: string, w: string, x: string)
    requires PartialKept(p, w)
    ensures Suffix(Chomp(p + x), Chomp(w + x))
    ensures Chomp(p + x) == Chomp(w + x) <==> p == w
    ensures p == w || |Chomp(p + x)| >= MAX_PARTIAL - 1
  {
    assert (w + x)[|w + x| - |p + x|..] == w[|w| - |p|..] + x;
    ChompsAlike(p + x, w + x);
  }

  ghost predicate Follows(h: seq<string>, p: string, before: seq<string>, w: string, c: string, cut: bool, k: nat) {
    var next, all := Feed(Splitting(h, p), c), before + Split(w + c);
    && Alike(next.Pieces(), all, cut || (k == |all| - 1 && |Last(all)| > MAX_PARTIAL), k)
    && PartialKept(next.partial, Last(all))
  }

  lemma FedABreak(h: seq<string>, p: string, x: string, rest: string)
    requires '\n' !in p && '\n' !in x
    ensures Feed(Splitting(h, p), x + "\n" + rest)
         == Splitting(h + [Chomp(p + x)] + Init(Split(rest)), Slice(Last(Split(rest)), MAX_PARTIAL))
  {
    var first, more := Chomp(p + x), Split(rest);
    assert Split(p + (x + "\n" + rest)) == [first] + more by {
      assert p + (x + "\n" + rest) == (p + x) + "\n" + rest;
      FirstLine(p + x, rest);
    }
    InitAfter(h, first, more);
  }

  lemma InitAfter(h: seq<string>, first: string, more: seq<string>)
    requires more != []
    ensures h + Init([first] + more) == h + [first] + Init(more) && Last([first] + more) == Last(more)
  {
  }

  lemma TextABreak(before: seq<string>, w: string, x: string, rest: string)
    requires '\n' !in w && '\n' !in x
    ensures before + Split(w + (x + "\n" + rest)) == before + [Chomp(w + x)] + Split(rest)
  {
    assert w + (x + "\n" + rest) == (w + x) + "\n" + rest;
    FirstLine(w + x, rest);
  }

  lemma FollowsABreak(h: seq<string>, p: string, before: seq<string>, w: string, c: string, cut: bool, k: nat)
    requires '\n' !in w && '\n' in c
    requires Alike(h + [p], before + [w], cut, k) && PartialKept(p, w) && (k > |before| ==> !cut)
    ensures Follows(h, p, before, w, c, cut, k)
  {
    assert forall y :: y in p ==> y in w;
    assert |h + [p]| == |before + [w]|;
    var x, rest := Parts(c);
    var more := Split(rest);
    FedABreak(h, p, x, rest);
    TextABreak(before, w, x, rest);
    LineEnds(h, p, before, w, x, more, cut, k);
    WholeIsKept(Last(more));
    LastAfter(before, Chomp(w + x), more);
  }

  lemma WholeIsKept(line: string)
    ensures PartialKept(Slice(line, MAX_PARTIAL), line)
  {
    SlicedIsKept("", "", line);
    assert "" + line == line;
  }

  lemma LastAfter(before: seq<string>, line: string, more: seq<string>)
    requires more != []
    ensures var all := before + [line] + more; |all| == |before| + 1 + |more| && Last(all) == Last(more)
  {
  }

  lemma OneMoreChunk(h: seq<string>, p: string, before: seq<string>, w: string, c: string, cut: bool, k: nat)
    requires '\n' !in w
    requires Alike(h + [p], before + [w], cut, k) && PartialKept(p, w) && (k > |before| ==> !cut)
    ensures Follows(h, p, before, w, c, cut, k)
  {
    if '\n' in c {
      FollowsABreak(h, p, before, w, c, cut, k);
    } else {
      assert forall y :: y in p ==> y in w;
      LineGrows(h, p, before, w, c, cut, k);
      assert h + Init([p + c]) == h;
    }
  }

  /** Line `k` is handed on as it should be, and the line still coming in is kept. */
  ghost predicate Handed(chunks: seq<string>, k: nat) {
    && Alike(Fed(chunks).Pieces(), Split(Concat(chunks)), Cut(chunks, k), k)
    && PartialKept(Fed(chunks).partial, Last(Split(Concat(chunks))))
  }

  lemma HandedOneMore(was: seq<string>, c: string, k: nat)
    requires Handed(was, k)
    ensures var s, lines := Fed(was), Split(Concat(was));
            Follows(s.handed, s.partial, Init(lines), Last(lines), c, Cut(was, k), k)
  {
    var s, lines := Fed(was), Split(Concat(was));
    assert Init(lines) + [Last(lines)] == lines;
    LastIsOneLine(Concat(was));
    if k > |Init(lines)| {
      NotCutYet(was, k);
    }
    OneMoreChunk(s.handed, s.partial, Init(lines), Last(lines), c, Cut(was, k), k);
  }

  lemma HandedNext(chunks: seq<string>, k: nat)
    requires chunks != [] && Handed(chunks[..|chunks| - 1], k)
    ensures Handed(chunks, k)
  {
    var n := |chunks| - 1;
    var was, c := chunks[..n], chunks[n];
    HandedOneMore(was, c, k);
    SplitGoesOn(Concat(was), c);
    CutEarlier(chunks, k);
    assert chunks[..|chunks|] == chunks;
    assert Fed(chunks) == Feed(Splitting(Fed(was).handed, Fed(was).partial), c);
    assert Split(Concat(chunks)) == Init(Split(Concat(was))) + Split(Last(Split(Concat(was))) + c);
  }

  /**
   * However a text is cut into chunks, even between \r and \n: as many lines are handed on as it has, and
   * each is the line itself exactly when no chunk ended inside it past MAX_PARTIAL characters. A line that
   * was cut keeps its end.
   */
  lemma {:induction false} EveryLineIsHandedOn(chunks: seq<string>, k: nat)
    ensures Handed(chunks, k)
    decreases |chunks|
  {
    if chunks == [] {
      assert forall i :: 0 <= i <= |chunks| ==> chunks[..i] == [];
    } else {
      EveryLineIsHandedOn(chunks[..|chunks| - 1], k);
      HandedNext(chunks, k);
    }
  }

  /** With no line read past MAX_PARTIAL characters at a chunk's end, the lines are those of the whole text. */
  lemma LinesAreThoseOfTheText(chunks: seq<string>)
    requires forall i :: 0 <= i <= |chunks| ==> |Last(Split(Concat(chunks[..i])))| <= MAX_PARTIAL
    ensures Fed(chunks).handed == Init(Split(Concat(chunks)))
    ensures Fed(chunks).partial == Last(Split(Concat(chunks)))
  {
    var got, whole := Fed(chunks).Pieces(), Split(Concat(chunks));
    forall k: nat | k < |whole|
      ensures |got| == |whole| && got[k] == whole[k]
    {
      EveryLineIsHandedOn(chunks, k);
      assert forall i :: 0 <= i <= |chunks| ==> |Last(Split(Concat(chunks[..i])))| <= MAX_PARTIAL && !CutAfter(chunks, k, i);
    }
    assert |got| == |whole| by {
      EveryLineIsHandedOn(chunks, 0);
    }
    assert got == whole;
    assert Fed(chunks).handed == Init(got);
  }

  /** `lineSplitter`: the line still coming in is all it keeps. */
  class LineSplitter {
    var partial: string
    ghost var chunks: seq<string>

    ghost predicate Valid()
      reads this
    {
      partial == Fed(chunks).partial
    }

    constructor ()
      ensures Valid() && chunks == []
    {
      partial, chunks := "", [];
    }

    /** The lines given to `onLine` for one chunk. */
    method Chunk(chunk: string) returns (lines: seq<string>)
      requires Valid()
      modifies this
      ensures Valid() && chunks == old(chunks) + [chunk]
      ensures Fed(chunks).handed == Fed(old(chunks)).handed + lines
    {
      assert (chunks + [chunk])[..|chunks|] == chunks;
      var all := Split(partial + chunk);
      lines := Init(all);
      partial := Slice(Last(all), MAX_PARTIAL);
      chunks := chunks + [chunk];
    }
  }

  /** A whole stream of chunks: what `onLine` hears, line by line, is what the text splits into. */
  method Stream(chunks: seq<string>) returns (heard: seq<string>)
    ensures |heard| == |Split(Concat(chunks))| - 1
    ensures forall k :: 0 <= k < |heard| ==>
              Suffix(heard[k], Split(Concat(chunks))[k]) && (heard[k] == Split(Concat(chunks))[k] <==> !Cut(chunks, k))
  {
    var splitter := new LineSplitter();
    heard := [];
    var i := 0;
    while i < |chunks|
      invariant 0 <= i <= |chunks|
      invariant splitter.Valid() && fresh(splitter)
      invariant splitter.chunks == chunks[..i] && heard == Fed(chunks[..i]).handed
    {
      var lines := splitter.Chunk(chunks[i]);
      heard := heard + lines;
      i := i + 1;
    }
    assert chunks[..|chunks|] == chunks;
    EveryLineIsHandedOn(chunks, 0);
    forall k | 0 <= k < |heard|
      ensures Suffix(heard[k], Split(Concat(chunks))[k]) && (heard[k] == Split(Concat(chunks))[k] <==> !Cut(chunks, k))
    {
      EveryLineIsHandedOn(chunks, k);
      assert Fed(chunks).Pieces()[k] == heard[k];
    }
  }

  // --- The tail ----------------------------------------------------------------------------------------

  /** `outputTail`: bounded, and always the end of everything written. */
  class OutputTail {
    const max: nat
    var text: string
    ghost var all: string

    ghost predicate Valid()
      reads this
    {
      text == Slice(all, max)
    }

    constructor (max: nat)
      ensures Valid() && this.max == max && all == ""
    {
      this.max, text, all := max, "", "";
    }

    method Add(s: string)
      requires Valid()
      modifies this
      ensures Valid() && all == old(all) + s
    {
      SliceAgain(all, s, max);
      text, all := Slice(text + s, max), all + s;
    }
  }

  /** What the tail dropped earlier is never part of a later tail. */
  lemma SliceAgain(a: string, b: string, max: nat)
    ensures Slice(Slice(a, max) + b, max) == Slice(a + b, max)
  {
    if 0 < max < |a| {
      assert a + b == a[..|a| - max] + (a[|a| - max..] + b);
    }
  }
}
