/**
 The three grep modes over one walk of the tree. Content mode works in blocks, a
 match with its context; whole blocks are added until the limit is reached.
 */
module Grep {
  type Test = string -> bool

  /** A walked file; directories, binary and unreadable files have no lines. */
  datatype File = File(path: string, lines: seq<string>)

  datatype Entry = Entry(file: string, line: nat, content: string)

  datatype FileCount = FileCount(file: string, count: nat)

  /** A limit that is not positive means 250. */
  function Limit(headLimit: int): (n: nat)
    ensures n > 0
  {
    if headLimit <= 0 then 250 else headLimit
  }

  // ---------------------------------------------------------------- blocks

  /** Lines `lo` up to `hi` of the file, numbered from one. */
  function Lines(f: File, lo: nat, hi: nat): seq<Entry>
    requires lo <= hi <= |f.lines|
  {
    seq(hi - lo, k requires 0 <= k < hi - lo => Entry(f.path, lo + k + 1, f.lines[lo + k]))
  }

  function Max0(n: int): nat { if n < 0 then 0 else n }

  /** The match on line `i` with at most `before` lines above it and `after` below. */
  function Block(f: File, i: nat, before: int, after: int): seq<Entry>
    requires i < |f.lines|
  {
    var lo := if Max0(before) > i then 0 else i - Max0(before);
    var hi := if i + Max0(after) >= |f.lines| then |f.lines| else i + Max0(after) + 1;
    Lines(f, lo, hi)
  }

  /** Line `n` is the match on line `i`, or at most `before` lines above or `after` below it. */
  predicate InWindow(f: File, i: nat, before: int, after: int, n: nat) {
    n < |f.lines| && (n == i || i - before <= n < i || i < n <= i + after)
  }

  /** Some entry of the block is line `n` of the file, counted from zero. */
  ghost predicate Shows(b: seq<Entry>, f: File, n: nat) {
    n < |f.lines| && exists k :: 0 <= k < |b| && b[k] == Entry(f.path, n + 1, f.lines[n])
  }

  /** A block shows exactly the lines at most `before` above and `after` below the match, in order. */
  lemma BlockShows(f: File, i: nat, before: int, after: int)
    requires i < |f.lines|
    ensures forall n: nat :: Shows(Block(f, i, before, after), f, n) <==> InWindow(f, i, before, after, n)
    ensures var b := Block(f, i, before, after); forall k, l :: 0 <= k < l < |b| ==> b[k].line < b[l].line
  {
    var b := Block(f, i, before, after);
    var lo := if Max0(before) > i then 0 else i - Max0(before);
    forall n: nat ensures Shows(b, f, n) <==> InWindow(f, i, before, after, n) {
      if InWindow(f, i, before, after, n) {
        assert b[n - lo] == Entry(f.path, n + 1, f.lines[n]);
      }
    }
  }

  /** The blocks of the matches among the first `n` lines. */
  function FileBlocks(hit: Test, f: File, n: nat, before: int, after: int): seq<seq<Entry>>
    requires n <= |f.lines|
  {
    if n == 0 then []
    else FileBlocks(hit, f, n - 1, before, after) + if hit(f.lines[n - 1]) then [Block(f, n - 1, before, after)] else []
  }

  function Matches(hit: Test, f: File, n: nat): nat
    requires n <= |f.lines|
  {
    if n == 0 then 0 else Matches(hit, f, n - 1) + if hit(f.lines[n - 1]) then 1 else 0
  }

  function AllMatches(hit: Test, f: File): nat { Matches(hit, f, |f.lines|) }

  function TreeBlocks(wanted: Test, hit: Test, tree: seq<File>, before: int, after: int): seq<seq<Entry>> {
    if tree == [] then []
    else
      var f := tree[|tree| - 1];
      TreeBlocks(wanted, hit, tree[..|tree| - 1], before, after)
      + if wanted(f.path) then FileBlocks(hit, f, |f.lines|, before, after) else []
  }

  /** Blocks are added whole until there are `limit` entries. */
  function Cut(blocks: seq<seq<Entry>>, limit: nat): seq<Entry> {
    if blocks == [] then []
    else
      var sofar := Cut(blocks[..|blocks| - 1], limit);
      if |sofar| >= limit then sofar else sofar + blocks[|blocks| - 1]
  }

  lemma CutGrows(blocks: seq<seq<Entry>>, block: seq<Entry>, limit: nat)
    ensures Cut(blocks + [block], limit) ==
      if |Cut(blocks, limit)| >= limit then Cut(blocks, limit) else Cut(blocks, limit) + block
  {
    assert (blocks + [block])[..|blocks|] == blocks;
  }

  lemma {:induction false} CutStops(blocks: seq<seq<Entry>>, more: seq<seq<Entry>>, limit: nat)
    requires |Cut(blocks, limit)| >= limit
    ensures Cut(blocks + more, limit) == Cut(blocks, limit)
  {
    if more == [] {
      assert blocks + more == blocks;
    } else {
      CutStops(blocks, more[..|more| - 1], limit);
      assert blocks + more == blocks + more[..|more| - 1] + [more[|more| - 1]];
      CutGrows(blocks + more[..|more| - 1], more[|more| - 1], limit);
    }
  }

  // ---------------------------------------------------------------- the algorithms

  lemma LinesGrow(f: File, lo: nat, hi: nat, before: seq<Entry>)
    requires lo <= hi < |f.lines|
    ensures before + Lines(f, lo, hi + 1) == before + Lines(f, lo, hi) + [Entry(f.path, hi + 1, f.lines[hi])]
  {
  }

  /** One match of grepContent: context before, the line, context after. */
  method AddBlock(f: File, i: nat, before: int, after: int, results: seq<Entry>) returns (extended: seq<Entry>)
    requires i < |f.lines|
    ensures extended == results + Block(f, i, before, after)
  {
    extended := results;
    var start := i - before;
    if start < 0 {
      start := 0;
    }
    ghost var lo := if start < i then start else i;
    var ci := start;
    while ci < i
      invariant lo <= (if ci < i then ci else i) && ci >= start
      invariant extended == results + Lines(f, lo, if ci < i then ci else i)
    {
      LinesGrow(f, lo, ci, results);
      extended := extended + [Entry(f.path, ci + 1, f.lines[ci])];
      ci := ci + 1;
    }
    LinesGrow(f, lo, i, results);
    extended := extended + [Entry(f.path, i + 1, f.lines[i])];
    var end := i + after;
    if end >= |f.lines| {
      end := |f.lines| - 1;
    }
    ci := i + 1;
    while ci <= end
      invariant i + 1 <= ci && (ci <= end + 1 || ci == i + 1)
      invariant ci <= |f.lines| && extended == results + Lines(f, lo, ci)
    {
      LinesGrow(f, lo, ci, results);
      extended := extended + [Entry(f.path, ci + 1, f.lines[ci])];
      ci := ci + 1;
    }
  }

  lemma {:induction false} FileBlocksPrefix(hit: Test, f: File, i: nat, n: nat, before: int, after: int)
    requires i <= n <= |f.lines|
    ensures FileBlocks(hit, f, i, before, after) <= FileBlocks(hit, f, n, before, after)
  {
    if i < n {
      FileBlocksPrefix(hit, f, i, n - 1, before, after);
    }
  }

  lemma CutNext(hit: Test, f: File, i: nat, before: int, after: int, limit: nat, done: seq<seq<Entry>>)
    requires i < |f.lines| && |Cut(done + FileBlocks(hit, f, i, before, after), limit)| < limit
    ensures Cut(done + FileBlocks(hit, f, i + 1, before, after), limit) ==
      Cut(done + FileBlocks(hit, f, i, before, after), limit)
        + if hit(f.lines[i]) then Block(f, i, before, after) else []
  {
    var blocks, block := FileBlocks(hit, f, i, before, after), Block(f, i, before, after);
    if hit(f.lines[i]) {
      CutGrows(done + blocks, block, limit);
      assert done + blocks + [block] == done + (blocks + [block]);
    } else {
      assert blocks + [] == blocks;
    }
  }

  /** The lines of one file, until the limit is reached. */
  method AddFile(hit: Test, f: File, before: int, after: int, limit: nat, results: seq<Entry>,
                 ghost done: seq<seq<Entry>>)
    returns (extended: seq<Entry>)
    requires results == Cut(done, limit) && |results| < limit
    ensures extended == Cut(done + FileBlocks(hit, f, |f.lines|, before, after), limit)
  {
    extended := results;
    assert done + [] == done;
    for i := 0 to |f.lines|
      invariant |extended| < limit && extended == Cut(done + FileBlocks(hit, f, i, before, after), limit)
    {
      CutNext(hit, f, i, before, after, limit, done);
      if hit(f.lines[i]) {
        extended := AddBlock(f, i, before, after, extended);
        if |extended| >= limit {
          CutRest(hit, f, i + 1, before, after, limit, done);
          return;
        }
      }
    }
  }

  lemma CutRest(hit: Test, f: File, i: nat, before: int, after: int, limit: nat, done: seq<seq<Entry>>)
    requires i <= |f.lines| && |Cut(done + FileBlocks(hit, f, i, before, after), limit)| >= limit
    ensures Cut(done + FileBlocks(hit, f, |f.lines|, before, after), limit)
      == Cut(done + FileBlocks(hit, f, i, before, after), limit)
  {
    var some, all := FileBlocks(hit, f, i, before, after), FileBlocks(hit, f, |f.lines|, before, after);
    FileBlocksPrefix(hit, f, i, |f.lines|, before, after);
    assert done + all == done + some + all[|some|..];
    CutStops(done + some, all[|some|..], limit);
  }

  method GrepContent(wanted: Test, hit: Test, tree: seq<File>, before: int, after: int, headLimit: int)
    returns (results: seq<Entry>)
    ensures results ==
      Cut(TreeBlocks(wanted, hit, tree, before, after), if headLimit <= 0 then 250 else headLimit)
  {
    var limit := Limit(headLimit);
    results := [];
    for k := 0 to |tree|
      invariant results == Cut(TreeBlocks(wanted, hit, tree[..k], before, after), limit)
    {
      var f := tree[k];
      ghost var done := TreeBlocks(wanted, hit, tree[..k], before, after);
      assert tree[..k + 1][..k] == tree[..k];
      assert done + [] == done;
      if |results| >= limit {
        CutStops(done, if wanted(f.path) then FileBlocks(hit, f, |f.lines|, before, after) else [], limit);
      } else if wanted(f.path) {
        results := AddFile(hit, f, before, after, limit, results, done);
      }
    }
    assert tree[..|tree|] == tree;
  }

  /** Every file with a match, in walk order, with its number of matching lines. */
  function Found(wanted: Test, hit: Test, tree: seq<File>): seq<FileCount> {
    if tree == [] then []
    else
      var f := tree[|tree| - 1];
      Found(wanted, hit, tree[..|tree| - 1])
      + if wanted(f.path) && AllMatches(hit, f) > 0 then [FileCount(f.path, AllMatches(hit, f))] else []
  }

  function First<T>(s: seq<T>, limit: nat): seq<T> { if |s| > limit then s[..limit] else s }

  function Files(found: seq<FileCount>): seq<string> {
    seq(|found|, i requires 0 <= i < |found| => found[i].file)
  }

  lemma {:induction false} MatchesGrow(hit: Test, f: File, i: nat, n: nat)
    requires i <= n <= |f.lines|
    ensures Matches(hit, f, i) <= Matches(hit, f, n)
  {
    if i < n {
      MatchesGrow(hit, f, i, n - 1);
    }
  }

  method HasMatch(hit: Test, f: File) returns (found: bool)
    ensures found <==> AllMatches(hit, f) > 0
  {
    for i := 0 to |f.lines|
      invariant Matches(hit, f, i) == 0
    {
      if hit(f.lines[i]) {
        MatchesGrow(hit, f, i + 1, |f.lines|);
        return true;
      }
    }
    return false;
  }

  method GrepFilesOnly(wanted: Test, hit: Test, tree: seq<File>, headLimit: int) returns (files: seq<string>)
    ensures files == Files(First(Found(wanted, hit, tree), if headLimit <= 0 then 250 else headLimit))
  {
    var limit := Limit(headLimit);
    files := [];
    for k := 0 to |tree|
      invariant files == Files(First(Found(wanted, hit, tree[..k]), limit))
    {
      var f := tree[k];
      assert tree[..k + 1][..k] == tree[..k];
      if |files| < limit && wanted(f.path) {
        var found := HasMatch(hit, f);
        if found {
          files := files + [f.path];
        }
      }
    }
    assert tree[..|tree|] == tree;
  }

  method CountMatches(hit: Test, f: File) returns (count: nat)
    ensures count == AllMatches(hit, f)
  {
    count := 0;
    for i := 0 to |f.lines|
      invariant count == Matches(hit, f, i)
    {
      if hit(f.lines[i]) {
        count := count + 1;
      }
    }
  }

  /** Its file column is what GrepFilesOnly returns under the same limit. */
  method GrepCount(wanted: Test, hit: Test, tree: seq<File>, headLimit: int) returns (counts: seq<FileCount>)
    ensures counts == First(Found(wanted, hit, tree), if headLimit <= 0 then 250 else headLimit)
  {
    var limit := Limit(headLimit);
    counts := [];
    for k := 0 to |tree|
      invariant counts == First(Found(wanted, hit, tree[..k]), limit)
    {
      var f := tree[k];
      assert tree[..k + 1][..k] == tree[..k];
      if |counts| < limit && wanted(f.path) {
        var count := CountMatches(hit, f);
        if count > 0 {
          counts := counts + [FileCount(f.path, count)];
        }
      }
    }
    assert tree[..|tree|] == tree;
  }

  // ---------------------------------------------------------------- how the modes agree

  function Flat(blocks: seq<seq<Entry>>): seq<Entry> {
    if blocks == [] then [] else Flat(blocks[..|blocks| - 1]) + blocks[|blocks| - 1]
  }

  /** Below the limit nothing is left out. */
  lemma {:induction false} CutBelow(blocks: seq<seq<Entry>>, limit: nat)
    requires |Cut(blocks, limit)| < limit
    ensures Cut(blocks, limit) == Flat(blocks)
  {
    if blocks != [] {
      CutBelow(blocks[..|blocks| - 1], limit);
    }
  }

  /** Whole blocks, up to the first one with which there are `limit` entries, or all of them. */
  lemma {:induction false} CutExactly(blocks: seq<seq<Entry>>, limit: nat) returns (n: nat)
    ensures n <= |blocks| && Cut(blocks, limit) == Flat(blocks[..n])
    ensures n < |blocks| ==> |Flat(blocks[..n])| >= limit
    ensures forall m: nat :: m < n ==> |Flat(blocks[..m])| < limit
  {
    if blocks == [] {
      n := 0;
    } else {
      var front := blocks[..|blocks| - 1];
      n := CutExactly(front, limit);
      assert front[..n] == blocks[..n];
      if n == |front| && |Flat(front)| < limit {
        assert front[..n] == front && blocks[..n + 1] == blocks;
        n := n + 1;
      }
      forall m: nat | m < n ensures |Flat(blocks[..m])| < limit {
        assert blocks[..m] == front[..m];
        if m == |front| {
          assert front[..m] == front;
        }
      }
    }
  }

  /** One-entry blocks are cut exactly at the limit. */
  lemma {:induction false} CutSingles(blocks: seq<seq<Entry>>, limit: nat)
    requires forall k :: 0 <= k < |blocks| ==> |blocks[k]| == 1
    ensures Cut(blocks, limit) == First(Flat(blocks), limit)
  {
    if blocks != [] {
      CutSingles(blocks[..|blocks| - 1], limit);
    }
  }

  lemma {:induction false} CutBounded(blocks: seq<seq<Entry>>, limit: nat, width: nat)
    requires forall k :: 0 <= k < |blocks| ==> |blocks[k]| <= width + 1
    requires limit > 0
    ensures |Cut(blocks, limit)| <= limit + width
  {
    if blocks != [] {
      CutBounded(blocks[..|blocks| - 1], limit, width);
    }
  }

  lemma {:induction false} CutFromBlocks(blocks: seq<seq<Entry>>, limit: nat, e: Entry) returns (k: nat)
    requires e in Cut(blocks, limit)
    ensures k < |blocks| && e in blocks[k]
  {
    var n := |blocks| - 1;
    if e in Cut(blocks[..n], limit) {
      k := CutFromBlocks(blocks[..n], limit, e);
    } else {
      k := n;
    }
  }

  /** Block `b` is the block of a matching line of a file of the tree. */
  ghost predicate IsBlock(wanted: Test, hit: Test, tree: seq<File>, before: int, after: int, b: seq<Entry>) {
    exists f, i: nat ::
      f in tree && wanted(f.path) && i < |f.lines| && hit(f.lines[i]) && b == Block(f, i, before, after)
  }

  lemma {:induction false} FileBlocksAre(wanted: Test, hit: Test, tree: seq<File>, f: File, n: nat,
                                         before: int, after: int)
    requires f in tree && wanted(f.path) && n <= |f.lines|
    ensures forall b :: b in FileBlocks(hit, f, n, before, after) ==> IsBlock(wanted, hit, tree, before, after, b)
  {
    if n > 0 {
      FileBlocksAre(wanted, hit, tree, f, n - 1, before, after);
      if hit(f.lines[n - 1]) {
        assert IsBlock(wanted, hit, tree, before, after, Block(f, n - 1, before, after));
      }
    }
  }

  lemma {:induction false} TreeBlocksAre(wanted: Test, hit: Test, tree: seq<File>, n: nat, before: int, after: int)
    requires n <= |tree|
    ensures forall b :: b in TreeBlocks(wanted, hit, tree[..n], before, after) ==>
      IsBlock(wanted, hit, tree, before, after, b)
  {
    if n > 0 {
      TreeBlocksAre(wanted, hit, tree, n - 1, before, after);
      assert tree[..n][..n - 1] == tree[..n - 1];
      if wanted(tree[n - 1].path) {
        FileBlocksAre(wanted, hit, tree, tree[n - 1], |tree[n - 1].lines|, before, after);
      }
    }
  }

  lemma {:induction false} FileBlocksAll(hit: Test, f: File, n: nat, i: nat, before: int, after: int)
    requires i < n <= |f.lines| && hit(f.lines[i])
    ensures Block(f, i, before, after) in FileBlocks(hit, f, n, before, after)
  {
    if i < n - 1 {
      FileBlocksAll(hit, f, n - 1, i, before, after);
    }
  }

  lemma {:induction false} TreeBlocksAll(wanted: Test, hit: Test, tree: seq<File>, f: File, i: nat,
                                         before: int, after: int)
    requires f in tree && wanted(f.path) && i < |f.lines| && hit(f.lines[i])
    ensures Block(f, i, before, after) in TreeBlocks(wanted, hit, tree, before, after)
  {
    var front, last := tree[..|tree| - 1], tree[|tree| - 1];
    if f == last {
      FileBlocksAll(hit, f, |f.lines|, i, before, after);
    } else {
      assert tree == front + [last];
      TreeBlocksAll(wanted, hit, front, f, i, before, after);
    }
  }

  /** The blocks of a tree are exactly those of the matching lines of its wanted files. */
  lemma BlocksExactly(wanted: Test, hit: Test, tree: seq<File>, before: int, after: int, b: seq<Entry>)
    ensures b in TreeBlocks(wanted, hit, tree, before, after) <==> exists f, i: nat ::
      f in tree && wanted(f.path) && i < |f.lines| && hit(f.lines[i]) && b == Block(f, i, before, after)
  {
    TreeBlocksAre(wanted, hit, tree, |tree|, before, after);
    assert tree[..|tree|] == tree;
    if f, i: nat :|
      f in tree && wanted(f.path) && i < |f.lines| && hit(f.lines[i]) && b == Block(f, i, before, after)
    {
      TreeBlocksAll(wanted, hit, tree, f, i, before, after);
    }
  }

  /** The places of the matching lines. */
  function Hits(hit: Test, f: File, n: nat): set<nat>
    requires n <= |f.lines|
  {
    set i: nat | i < n && hit(f.lines[i])
  }

  lemma {:induction false} MatchesAreHits(hit: Test, f: File, n: nat)
    requires n <= |f.lines|
    ensures Matches(hit, f, n) == |Hits(hit, f, n)|
  {
    if n > 0 {
      MatchesAreHits(hit, f, n - 1);
      HitsGrow(hit, f, n);
    }
  }

  lemma HitsGrow(hit: Test, f: File, n: nat)
    requires 0 < n <= |f.lines|
    ensures Hits(hit, f, n) == Hits(hit, f, n - 1) + if hit(f.lines[n - 1]) then {n - 1} else {}
  {
  }

  /** The entry is a line of a wanted file, under its own number. */
  ghost predicate TrueLine(wanted: Test, tree: seq<File>, e: Entry) {
    exists f ::
      f in tree && wanted(f.path) && e.file == f.path && 1 <= e.line <= |f.lines| && e.content == f.lines[e.line - 1]
  }

  /**
   Content mode returns only true lines of wanted files, each with its right
   number, and at most the limit and one full context beyond it.
   */
  lemma ContentTrue(wanted: Test, hit: Test, tree: seq<File>, before: int, after: int, headLimit: int)
    ensures var results := Cut(TreeBlocks(wanted, hit, tree, before, after), Limit(headLimit));
      && |results| <= Limit(headLimit) + Max0(before) + Max0(after)
      && forall e :: e in results ==> TrueLine(wanted, tree, e)
  {
    var blocks := TreeBlocks(wanted, hit, tree, before, after);
    TreeBlocksAre(wanted, hit, tree, |tree|, before, after);
    assert tree[..|tree|] == tree;
    forall k | 0 <= k < |blocks| ensures |blocks[k]| <= Max0(before) + Max0(after) + 1 {
      assert IsBlock(wanted, hit, tree, before, after, blocks[k]);
    }
    CutBounded(blocks, Limit(headLimit), Max0(before) + Max0(after));
    forall e | e in Cut(blocks, Limit(headLimit)) ensures TrueLine(wanted, tree, e) {
      var k := CutFromBlocks(blocks, Limit(headLimit), e);
      assert IsBlock(wanted, hit, tree, before, after, blocks[k]);
    }
  }

  lemma InColumn(found: seq<FileCount>, c: FileCount)
    ensures c in found ==> c.file in Files(found)
  {
    if c in found {
      var n :| 0 <= n < |found| && found[n] == c;
      assert Files(found)[n] == c.file;
    }
  }

  /** Entries of one file. */
  function Of(results: seq<Entry>, file: string): nat {
    if results == [] then 0
    else Of(results[..|results| - 1], file) + if results[|results| - 1].file == file then 1 else 0
  }

  lemma {:induction false} OfAppend(a: seq<Entry>, b: seq<Entry>, file: string)
    ensures Of(a + b, file) == Of(a, file) + Of(b, file)
  {
    if b == [] {
      assert a + b == a;
    } else {
      assert (a + b)[..|a + b| - 1] == a + b[..|b| - 1];
      OfAppend(a, b[..|b| - 1], file);
    }
  }

  lemma {:induction false} FlatAppend(a: seq<seq<Entry>>, b: seq<seq<Entry>>)
    ensures Flat(a + b) == Flat(a) + Flat(b)
  {
    if b == [] {
      assert a + b == a;
    } else {
      assert (a + b)[..|a + b| - 1] == a + b[..|b| - 1];
      FlatAppend(a, b[..|b| - 1]);
    }
  }

  lemma OfOne(blocks: seq<seq<Entry>>, e: Entry, file: string)
    ensures Of(Flat(blocks + [[e]]), file) == Of(Flat(blocks), file) + if e.file == file then 1 else 0
  {
    FlatAppend(blocks, [[e]]);
    assert Flat([[e]]) == [e];
    OfAppend(Flat(blocks), [e], file);
  }

  lemma {:induction false} FileOf(hit: Test, f: File, n: nat, file: string)
    requires n <= |f.lines|
    ensures Of(Flat(FileBlocks(hit, f, n, 0, 0)), file) == if file == f.path then Matches(hit, f, n) else 0
  {
    if n > 0 {
      FileOf(hit, f, n - 1, file);
      var blocks := FileBlocks(hit, f, n - 1, 0, 0);
      if hit(f.lines[n - 1]) {
        var e := Entry(f.path, n, f.lines[n - 1]);
        assert Block(f, n - 1, 0, 0) == [e];
        OfOne(blocks, e, file);
      } else {
        assert FileBlocks(hit, f, n, 0, 0) == blocks;
      }
    }
  }

  ghost predicate DistinctPaths(tree: seq<File>) {
    forall i, j :: 0 <= i < j < |tree| ==> tree[i].path != tree[j].path
  }

  /** How many entries of `file` one more walked file adds. */
  lemma TreeOfGrows(wanted: Test, hit: Test, tree: seq<File>, file: string)
    requires tree != []
    ensures var f := tree[|tree| - 1];
      Of(Flat(TreeBlocks(wanted, hit, tree, 0, 0)), file) ==
      Of(Flat(TreeBlocks(wanted, hit, tree[..|tree| - 1], 0, 0)), file)
      + if wanted(f.path) && f.path == file then AllMatches(hit, f) else 0
  {
    var f := tree[|tree| - 1];
    FileOf(hit, f, |f.lines|, file);
    var a := TreeBlocks(wanted, hit, tree[..|tree| - 1], 0, 0);
    var b := if wanted(f.path) then FileBlocks(hit, f, |f.lines|, 0, 0) else [];
    FlatAppend(a, b);
    OfAppend(Flat(a), Flat(b), file);
  }

  /** In the full content without context each file has as many entries as it has matches. */
  lemma {:induction false} TreeOf(wanted: Test, hit: Test, tree: seq<File>, file: string)
    requires DistinctPaths(tree)
    ensures forall k :: 0 <= k < |tree| && tree[k].path == file ==>
      Of(Flat(TreeBlocks(wanted, hit, tree, 0, 0)), file) == if wanted(file) then AllMatches(hit, tree[k]) else 0
    ensures (forall k :: 0 <= k < |tree| ==> tree[k].path != file) ==>
      Of(Flat(TreeBlocks(wanted, hit, tree, 0, 0)), file) == 0
  {
    if tree != [] {
      TreeOf(wanted, hit, tree[..|tree| - 1], file);
      TreeOfGrows(wanted, hit, tree, file);
    }
  }

  /** Count mode knows exactly the wanted files with a match. */
  lemma {:induction false} FoundAre(wanted: Test, hit: Test, tree: seq<File>)
    ensures forall c :: c in Found(wanted, hit, tree) <==>
      exists k :: 0 <= k < |tree| && wanted(tree[k].path) && AllMatches(hit, tree[k]) > 0
        && c == FileCount(tree[k].path, AllMatches(hit, tree[k]))
  {
    if tree != [] {
      FoundAre(wanted, hit, tree[..|tree| - 1]);
    }
  }

  /**
   Without context and below the limit, content mode has exactly Count lines for
   every file that count mode lists; at the limit it is the first lines of them.
   */
  lemma ContentAgreesWithCount(wanted: Test, hit: Test, tree: seq<File>, headLimit: int)
    requires DistinctPaths(tree)
    ensures var content := Cut(TreeBlocks(wanted, hit, tree, 0, 0), Limit(headLimit));
      && content == First(Flat(TreeBlocks(wanted, hit, tree, 0, 0)), Limit(headLimit))
      && (|content| < Limit(headLimit) ==>
           && (forall c :: c in Found(wanted, hit, tree) ==> Of(content, c.file) == c.count)
           && forall k :: 0 <= k < |tree| && tree[k].path !in Files(Found(wanted, hit, tree)) ==>
                Of(content, tree[k].path) == 0)
  {
    var blocks := TreeBlocks(wanted, hit, tree, 0, 0);
    TreeBlocksAre(wanted, hit, tree, |tree|, 0, 0);
    assert tree[..|tree|] == tree;
    forall k | 0 <= k < |blocks| ensures |blocks[k]| == 1 {
      assert IsBlock(wanted, hit, tree, 0, 0, blocks[k]);
    }
    CutSingles(blocks, Limit(headLimit));
    if |Cut(blocks, Limit(headLimit))| < Limit(headLimit) {
      CutBelow(blocks, Limit(headLimit));
      FoundAre(wanted, hit, tree);
      forall c | c in Found(wanted, hit, tree) ensures Of(Flat(blocks), c.file) == c.count {
        TreeOf(wanted, hit, tree, c.file);
      }
      forall k | 0 <= k < |tree| && tree[k].path !in Files(Found(wanted, hit, tree))
        ensures Of(Flat(blocks), tree[k].path) == 0
      {
        TreeOf(wanted, hit, tree, tree[k].path);
        var c := FileCount(tree[k].path, AllMatches(hit, tree[k]));
        InColumn(Found(wanted, hit, tree), c);
      }
    }
  }
}
