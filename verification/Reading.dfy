/** Reading a file page by page, with numbered lines. */
module Reading {
  import opened Text

  const DEFAULT_LIMIT := 2000

  datatype Page = Page(content: string, lines: nat, truncated: bool)

  function Numbered(n: nat, line: string): string { Digits(n) + "\t" + line }

  /** Lines `lo` up to `hi`, each behind its number; the first line is number one. */
  function Span(lines: seq<string>, lo: nat, hi: nat): seq<string>
    requires hi <= |lines|
  {
    if lo >= hi then [] else Span(lines, lo, hi - 1) + [Numbered(hi, lines[hi - 1])]
  }

  function Skipped(offset: int): nat { if offset < 0 then 0 else offset }

  function Limit(limit: int): (n: nat)
    ensures n > 0
  {
    if limit <= 0 then DEFAULT_LIMIT else limit
  }

  function Least(a: nat, b: nat): nat { if a < b then a else b }

  /** The lines a page at `offset` shows. */
  function Shown(lines: seq<string>, offset: int, limit: int): seq<string> {
    Span(lines, Skipped(offset), Least(|lines|, Skipped(offset) + Limit(limit)))
  }

  lemma {:induction false} SpanLength(lines: seq<string>, lo: nat, hi: nat)
    requires hi <= |lines|
    ensures |Span(lines, lo, hi)| == if lo < hi then hi - lo else 0
  {
    if lo < hi {
      SpanLength(lines, lo, hi - 1);
    }
  }

  /**
   The lines of a page: from the offset (none if it is negative) at most `limit`
   lines (2000 if it is not positive), each behind its number and a tab.
   */
  ghost predicate IsPage(lines: seq<string>, offset: int, limit: int, shown: seq<string>) {
    var skip, max := if offset < 0 then 0 else offset, if limit <= 0 then 2000 else limit;
    && |shown| == (if skip >= |lines| then 0 else if |lines| - skip <= max then |lines| - skip else max)
    && forall k :: 0 <= k < |shown| ==> shown[k] == Digits(skip + k + 1) + "\t" + lines[skip + k]
  }

  lemma ShownIsPage(lines: seq<string>, offset: int, limit: int)
    ensures IsPage(lines, offset, limit, Shown(lines, offset, limit))
  {
    var lo, hi := Skipped(offset), Least(|lines|, Skipped(offset) + Limit(limit));
    SpanLength(lines, lo, hi);
    forall k | 0 <= k < |Shown(lines, offset, limit)|
      ensures Shown(lines, offset, limit)[k] == Digits(lo + k + 1) + "\t" + lines[lo + k]
    {
      SpanAt(lines, lo, hi, k);
    }
  }

  /** ReadFile, from the lines the scanner delivers. */
  method ReadFile(lines: seq<string>, offset: int, limit: int) returns (page: Page)
    ensures page.content == Join(Shown(lines, offset, limit), "\n")
    ensures var end := (if offset < 0 then 0 else offset) + (if limit <= 0 then 2000 else limit);
      && (page.truncated <==> |lines| > end)
      && page.lines == if |lines| > end then end + 1 else |lines|
    ensures exists shown :: page.content == Join(shown, "\n") && IsPage(lines, offset, limit, shown)
  {
    ShownIsPage(lines, offset, limit);
    var max := Limit(limit);
    var shown: seq<string> := [];
    var lineNum := 0;
    var truncated := false;
    while lineNum < |lines| && !truncated
      invariant 0 <= lineNum <= |lines|
      invariant !truncated ==> lineNum <= Skipped(offset) + max && shown == Span(lines, Skipped(offset), lineNum)
      invariant truncated ==> lineNum == Skipped(offset) + max + 1 && shown == Span(lines, Skipped(offset), lineNum - 1)
      decreases |lines| - lineNum
    {
      var text := lines[lineNum];
      SpanLength(lines, Skipped(offset), lineNum);
      lineNum := lineNum + 1;
      if offset > 0 && lineNum <= offset {
        continue;
      }
      if |shown| >= max {
        truncated := true;
      } else {
        shown := shown + [Numbered(lineNum, text)];
      }
    }
    page := Page(Join(shown, "\n"), lineNum, truncated);
  }

  /** The pages at offset `from`, `from` + `limit`, … up to the end of the file. */
  function Pages(lines: seq<string>, from: nat, limit: nat): seq<seq<string>>
    requires limit > 0
    decreases |lines| - from
  {
    if from >= |lines| then [] else [Shown(lines, from, limit)] + Pages(lines, from + limit, limit)
  }

  function Flat(pages: seq<seq<string>>): seq<string> {
    if pages == [] then [] else pages[0] + Flat(pages[1..])
  }

  lemma {:induction false} SpanSplits(lines: seq<string>, lo: nat, mid: nat, hi: nat)
    requires lo <= mid <= hi <= |lines|
    ensures Span(lines, lo, mid) + Span(lines, mid, hi) == Span(lines, lo, hi)
  {
    if mid < hi {
      SpanSplits(lines, lo, mid, hi - 1);
    }
  }

  /** Reading page after page delivers every line once, in order, under its number. */
  lemma {:induction false} PagesLoseNothing(lines: seq<string>, from: nat, limit: nat)
    requires limit > 0 && from <= |lines|
    ensures Flat(Pages(lines, from, limit)) == Span(lines, from, |lines|)
    decreases |lines| - from
  {
    if from < |lines| {
      var next := Least(|lines|, from + limit);
      SpanSplits(lines, from, next, |lines|);
      if from + limit <= |lines| {
        PagesLoseNothing(lines, from + limit, limit);
      }
    }
  }

  lemma {:induction false} SpanAt(lines: seq<string>, lo: nat, hi: nat, k: nat)
    requires lo <= hi <= |lines| && k < hi - lo
    ensures |Span(lines, lo, hi)| == hi - lo && Span(lines, lo, hi)[k] == Numbered(lo + k + 1, lines[lo + k])
  {
    SpanLength(lines, lo, hi);
    SpanLength(lines, lo, hi - 1);
    if lo + k < hi - 1 {
      SpanAt(lines, lo, hi - 1, k);
    }
  }

  /** All pages together show line k of the file in place k, under the number k + 1. */
  lemma PagesNumbered(lines: seq<string>, limit: nat)
    requires limit > 0
    ensures |Flat(Pages(lines, 0, limit))| == |lines|
    ensures forall k :: 0 <= k < |lines| ==> Flat(Pages(lines, 0, limit))[k] == Digits(k + 1) + "\t" + lines[k]
  {
    PagesLoseNothing(lines, 0, limit);
    SpanLength(lines, 0, |lines|);
    forall k | 0 <= k < |lines| ensures Flat(Pages(lines, 0, limit))[k] == Numbered(k + 1, lines[k]) {
      SpanAt(lines, 0, |lines|, k);
    }
  }

  function Contents(pages: seq<seq<string>>): seq<string> {
    seq(|pages|, i requires 0 <= i < |pages| => Join(pages[i], "\n"))
  }

  lemma {:induction false} JoinFlat(pages: seq<seq<string>>)
    requires pages != [] && forall k :: 0 <= k < |pages| ==> pages[k] != []
    ensures Flat(pages) != [] && Join(Contents(pages), "\n") == Join(Flat(pages), "\n")
  {
    if |pages| == 1 {
      assert Flat(pages) == pages[0] && Contents(pages) == [Join(pages[0], "\n")];
    } else {
      JoinFlat(pages[1..]);
      JoinAppend(pages[0], Flat(pages[1..]), "\n");
      assert Contents(pages)[1..] == Contents(pages[1..]);
    }
  }

  lemma {:induction false} PagesNonEmpty(lines: seq<string>, from: nat, limit: nat)
    requires limit > 0
    ensures forall k :: 0 <= k < |Pages(lines, from, limit)| ==> Pages(lines, from, limit)[k] != []
    decreases |lines| - from
  {
    if from < |lines| {
      SpanLength(lines, from, Least(|lines|, from + limit));
      PagesNonEmpty(lines, from + limit, limit);
    }
  }

  /** So do the texts: the page contents joined by newlines are the content of one read of everything. */
  lemma ContentsLoseNothing(lines: seq<string>, limit: nat)
    requires limit > 0
    ensures Join(Contents(Pages(lines, 0, limit)), "\n") == Join(Span(lines, 0, |lines|), "\n")
  {
    PagesLoseNothing(lines, 0, limit);
    if lines != [] {
      PagesNonEmpty(lines, 0, limit);
      JoinFlat(Pages(lines, 0, limit));
    }
  }
}
