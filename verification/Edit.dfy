/** Replacing text in a file: everywhere, or in one place that must be unique. */
module Edit {
  import opened Text
  import opened Wrappers

  /** `sub` occurs in `s` at place `k`. */
  predicate At(s: string, sub: string, k: nat) { k + |sub| <= |s| && s[k..k + |sub|] == sub }

  ghost predicate NoneIn(s: string, sub: string, lo: nat, hi: nat) {
    forall k: nat :: lo <= k < hi ==> !At(s, sub, k)
  }

  /** strings.Index, from a place on: the first place where `sub` occurs. */
  function Index(s: string, sub: string, from: nat): (i: Option<nat>)
    requires from <= |s|
    ensures i.Some? ==> from <= i.value && At(s, sub, i.value)
    decreases |s| - from
  {
    if At(s, sub, from) then Some(from) else if from == |s| then None else Index(s, sub, from + 1)
  }

  lemma {:induction false} IndexFinds(s: string, sub: string, from: nat)
    requires from <= |s|
    ensures var i := Index(s, sub, from);
      NoneIn(s, sub, from, if i.Some? then i.value else |s| + 1)
    decreases |s| - from
  {
    if !At(s, sub, from) && from < |s| {
      IndexFinds(s, sub, from + 1);
    }
  }

  /** The pieces are cut at leftmost occurrences: none starts earlier in what the cuts before left over. */
  ghost predicate CutLeftmost(s: string, target: string, from: nat, pieces: seq<string>)
    requires from <= |s|
    decreases |pieces|
  {
    if |pieces| == 0 then false
    else if |pieces| == 1 then pieces[0] == s[from..] && NoneIn(s, target, from, |s| + 1)
    else
      var at := from + |pieces[0]|;
      && At(s, target, at) && pieces[0] == s[from..at] && NoneIn(s, target, from, at)
      && CutLeftmost(s, target, at + |target|, pieces[1..])
  }

  lemma CutFirst(s: string, target: string, from: nat, pieces: seq<string>, rest: seq<string>)
    requires from <= |s| && |pieces| > 1 && pieces[1..] == rest
    requires var i := Index(s, target, from);
      i.Some? && pieces[0] == s[from..i.value] && CutLeftmost(s, target, i.value + |target|, rest)
    ensures CutLeftmost(s, target, from, pieces)
  {
    IndexFinds(s, target, from);
    assert from + |pieces[0]| == Index(s, target, from).value;
  }

  lemma LastPiece(s: string, target: string, from: nat, pieces: seq<string>)
    requires from <= |s| && Index(s, target, from).None? && pieces == [s[from..]]
    ensures CutLeftmost(s, target, from, pieces)
  {
    IndexFinds(s, target, from);
  }

  lemma ThreeParts(s: string, a: nat, b: nat, c: nat)
    requires a <= b <= c <= |s|
    ensures s[a..b] + s[b..c] + s[c..] == s[a..]
  {
  }

  lemma JoinFirst(s: string, target: string, from: nat, i: nat, pieces: seq<string>)
    requires from <= i && At(s, target, i) && |pieces| > 1
    requires pieces[0] == s[from..i] && Join(pieces[1..], target) == s[i + |target|..]
    ensures Join(pieces, target) == s[from..]
  {
    var rest := Join(pieces[1..], target);
    assert Join(pieces, target) == pieces[0] + target + rest;
    ThreeParts(s, from, i, i + |target|);
  }

  /** The text from `from` on, around the occurrences of `target` that a search from left to right finds. */
  function PiecesFrom(s: string, target: string, from: nat): (pieces: seq<string>)
    requires from <= |s| && target != ""
    ensures |pieces| > 0
    decreases |s| - from
  {
    match Index(s, target, from)
    case None => [s[from..]]
    case Some(i) => [s[from..i]] + PiecesFrom(s, target, i + |target|)
  }

  /** The pieces are cut at the leftmost, non-overlapping occurrences of `target`. */
  lemma {:induction false} PiecesCut(s: string, target: string, from: nat)
    requires from <= |s| && target != ""
    ensures CutLeftmost(s, target, from, PiecesFrom(s, target, from))
    decreases |s| - from
  {
    var pieces := PiecesFrom(s, target, from);
    match Index(s, target, from)
    case None =>
      LastPiece(s, target, from, pieces);
    case Some(i) =>
      PiecesCut(s, target, i + |target|);
      CutFirst(s, target, from, pieces, PiecesFrom(s, target, i + |target|));
  }

  /** Putting the target back between the pieces restores the text. */
  lemma {:induction false} PiecesRejoin(s: string, target: string, from: nat)
    requires from <= |s| && target != ""
    ensures Join(PiecesFrom(s, target, from), target) == s[from..]
    decreases |s| - from
  {
    var pieces := PiecesFrom(s, target, from);
    match Index(s, target, from)
    case None =>
    case Some(i) =>
      PiecesRejoin(s, target, i + |target|);
      assert pieces[1..] == PiecesFrom(s, target, i + |target|);
      JoinFirst(s, target, from, i, pieces);
  }

  /** An empty target occurs before every character and at the end. */
  function Pieces(s: string, target: string): (pieces: seq<string>)
    ensures |pieces| > 0
  {
    if target == "" then [""] + seq(|s|, i requires 0 <= i < |s| => [s[i]]) + [""] else PiecesFrom(s, target, 0)
  }

  /** strings.Count */
  function Count(s: string, target: string): nat { |Pieces(s, target)| - 1 }

  /** strings.Replace: the first `n` occurrences, or all of them when `n` is negative. */
  function Replace(s: string, target: string, replacement: string, n: int): string {
    Rejoined(Pieces(s, target), target, replacement, n)
  }

  function Rejoined(pieces: seq<string>, target: string, replacement: string, n: int): string {
    if pieces == [] then ""
    else if |pieces| == 1 then pieces[0]
    else
      pieces[0] + (if n == 0 then target else replacement)
      + Rejoined(pieces[1..], target, replacement, if n == 0 then 0 else n - 1)
  }

  /** EditFile, on the content of a file that could be read; the result is what is written. */
  method EditFile(content: string, target: string, replacement: string, replaceAll: bool) returns (r: Result<string>)
    ensures r.Ok? <==> Count(content, target) == 1 || (replaceAll && Count(content, target) > 0)
    ensures r.Ok? ==> r.value == Join(Pieces(content, target), replacement)
  {
    var count := Count(content, target);
    if count == 0 {
      return Err("old_string not found in file");
    }
    if replaceAll {
      AllRejoined(Pieces(content, target), target, replacement, -1);
      return Ok(Replace(content, target, replacement, -1));
    }
    if count > 1 {
      return Err("old_string must be unique");
    }
    AllRejoined(Pieces(content, target), target, replacement, 1);
    r := Ok(Replace(content, target, replacement, 1));
  }

  /** Replacing at least as many occurrences as there are replaces them all. */
  lemma {:induction false} AllRejoined(pieces: seq<string>, target: string, replacement: string, n: int)
    requires n < 0 || n >= |pieces| - 1
    ensures Rejoined(pieces, target, replacement, n) == Join(pieces, replacement)
  {
    if |pieces| > 1 {
      AllRejoined(pieces[1..], target, replacement, n - 1);
    }
  }

  // ---------------------------------------------------------------- what the pieces are

  lemma {:induction false} JoinCharacters(s: string)
    ensures Join(seq(|s|, i requires 0 <= i < |s| => [s[i]]), "") == s
  {
    var parts := seq(|s|, i requires 0 <= i < |s| => [s[i]]);
    if |s| > 1 {
      JoinCharacters(s[1..]);
      assert parts[1..] == seq(|s[1..]|, i requires 0 <= i < |s[1..]| => [s[1..][i]]);
    }
  }

  /** An empty text is found once more than there are characters: before each of them, and at the end. */
  lemma EmptyTarget(s: string)
    ensures Count(s, "") == |s| + 1 && Join(Pieces(s, ""), "") == s
    ensures Pieces(s, "")[0] == "" == Pieces(s, "")[|s| + 1]
    ensures forall i :: 0 <= i < |s| ==> Pieces(s, "")[i + 1] == [s[i]]
  {
    var parts := seq(|s|, i requires 0 <= i < |s| => [s[i]]);
    JoinCharacters(s);
    if parts != [] {
      JoinAppend([""], parts, "");
      JoinAppend([""] + parts, [""], "");
    }
  }

  /** The leftmost split is unique, so it is the one that Pieces computes. */
  lemma {:induction false} CutUnique(s: string, target: string, from: nat, p: seq<string>, q: seq<string>)
    requires target != "" && from <= |s| && CutLeftmost(s, target, from, p) && CutLeftmost(s, target, from, q)
    ensures p == q
    decreases |p|
  {
    if |p| > 1 && |q| > 1 {
      var at := from + |p[0]|;
      assert at == from + |q[0]|;
      CutUnique(s, target, at + |target|, p[1..], q[1..]);
      assert p == [p[0]] + p[1..] && q == [q[0]] + q[1..];
    }
  }

  lemma {:induction false} JoinLength(pieces: seq<string>, a: string, b: string)
    requires pieces != []
    ensures |Join(pieces, b)| == |Join(pieces, a)| + (|pieces| - 1) * (|b| - |a|)
  {
    if |pieces| > 1 {
      JoinLength(pieces[1..], a, b);
      var n, d := |pieces| - 1, |b| - |a|;
      assert n * d == (n - 1) * d + d;
    }
  }

  /** Replacing everything changes the length by one difference for each occurrence. */
  lemma ReplaceAllLength(s: string, target: string, replacement: string)
    requires target != ""
    ensures |Replace(s, target, replacement, -1)| == |s| + Count(s, target) * (|replacement| - |target|)
  {
    PiecesRejoin(s, target, 0);
    AllRejoined(Pieces(s, target), target, replacement, -1);
    JoinLength(Pieces(s, target), target, replacement);
  }
}
