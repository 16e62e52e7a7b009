/** Matching a path, segment by segment, against a pattern with `**`. */
module Glob {
  const STARS := "**"

  /** filepath.Match on one segment; a malformed pattern matches nothing. */
  type Match = (string, string) -> bool

  // ---------------------------------------------------------------- what a match is

  function Flatten(runs: seq<seq<string>>): seq<string> {
    if runs == [] then [] else runs[0] + Flatten(runs[1..])
  }

  /** The run a pattern segment stands for: any run for `**`, one matching name otherwise. */
  predicate Covers(m: Match, segment: string, run: seq<string>) {
    segment == "**" || (|run| == 1 && m(segment, run[0]))
  }

  /** `runs` splits the path into one run for each pattern segment. */
  predicate Splits(m: Match, pattern: seq<string>, path: seq<string>, runs: seq<seq<string>>) {
    && |runs| == |pattern| && Flatten(runs) == path
    && forall k :: 0 <= k < |runs| ==> Covers(m, pattern[k], runs[k])
  }

  ghost predicate Accepts(m: Match, pattern: seq<string>, path: seq<string>) {
    exists runs :: Splits(m, pattern, path, runs)
  }

  /** The same, one pattern segment at a time. */
  ghost predicate Matches(m: Match, pattern: seq<string>, path: seq<string>) {
    if pattern == [] then path == []
    else if pattern[0] == STARS then exists k :: 0 <= k <= |path| && Matches(m, pattern[1..], path[k..])
    else path != [] && m(pattern[0], path[0]) && Matches(m, pattern[1..], path[1..])
  }

  lemma {:induction false} MatchesSplits(m: Match, pattern: seq<string>, path: seq<string>)
    returns (runs: seq<seq<string>>)
    requires Matches(m, pattern, path)
    ensures Splits(m, pattern, path, runs)
  {
    if pattern == [] {
      runs := [];
    } else {
      var k := 1;
      if pattern[0] == STARS {
        k :| 0 <= k <= |path| && Matches(m, pattern[1..], path[k..]);
      }
      var rest := MatchesSplits(m, pattern[1..], path[k..]);
      runs := [path[..k]] + rest;
      assert runs[1..] == rest;
    }
  }

  lemma {:induction false} SplitsMatches(m: Match, pattern: seq<string>, path: seq<string>, runs: seq<seq<string>>)
    requires Splits(m, pattern, path, runs)
    ensures Matches(m, pattern, path)
    decreases |pattern|
  {
    if pattern != [] {
      var k := |runs[0]|;
      assert Covers(m, pattern[0], runs[0]);
      assert path[k..] == Flatten(runs[1..]) && path[..k] == runs[0];
      SplitsMatches(m, pattern[1..], path[k..], runs[1..]);
    }
  }

  lemma MatchesIsAccepts(m: Match, pattern: seq<string>, path: seq<string>)
    ensures Matches(m, pattern, path) <==> Accepts(m, pattern, path)
  {
    if Matches(m, pattern, path) {
      var runs := MatchesSplits(m, pattern, path);
    }
    if runs :| Splits(m, pattern, path, runs) {
      SplitsMatches(m, pattern, path, runs);
    }
  }

  // ---------------------------------------------------------------- adjacent stars

  /** The pattern with every `**` that follows another one left out. */
  function Collapse(pattern: seq<string>): seq<string> {
    if |pattern| < 2 then pattern
    else if pattern[0] == STARS && pattern[1] == STARS then Collapse(pattern[1..])
    else [pattern[0]] + Collapse(pattern[1..])
  }

  lemma StarsTwice(m: Match, rest: seq<string>, path: seq<string>)
    ensures Matches(m, [STARS, STARS] + rest, path) <==> Matches(m, [STARS] + rest, path)
  {
    assert ([STARS, STARS] + rest)[1..] == [STARS] + rest && ([STARS] + rest)[1..] == rest;
    if k :| 0 <= k <= |path| && Matches(m, [STARS] + rest, path[k..]) {
      var j :| 0 <= j <= |path[k..]| && Matches(m, rest, path[k..][j..]);
      assert path[k..][j..] == path[k + j..];
    }
    if k :| 0 <= k <= |path| && Matches(m, rest, path[k..]) {
      assert path[0..] == path && Matches(m, [STARS] + rest, path[0..]);
    }
  }

  /** Collapsing adjacent `**` never changes what a pattern matches. */
  lemma {:induction false} CollapseKeepsMatches(m: Match, pattern: seq<string>, path: seq<string>)
    ensures Matches(m, Collapse(pattern), path) <==> Matches(m, pattern, path)
    decreases |pattern|
  {
    if |pattern| >= 2 {
      var tail := pattern[1..];
      if pattern[0] == STARS && pattern[1] == STARS {
        CollapseKeepsMatches(m, tail, path);
        StarsTwice(m, pattern[2..], path);
        assert tail == [STARS] + pattern[2..] && pattern == [STARS, STARS] + pattern[2..];
      } else {
        forall k | 0 <= k <= |path| ensures Matches(m, Collapse(tail), path[k..]) <==> Matches(m, tail, path[k..]) {
          CollapseKeepsMatches(m, tail, path[k..]);
        }
        assert ([pattern[0]] + Collapse(tail))[1..] == Collapse(tail);
      }
    }
  }

  // ---------------------------------------------------------------- the algorithm

  lemma OnlyStars(m: Match, pattern: seq<string>)
    ensures Matches(m, pattern, []) <==> forall k :: 0 <= k < |pattern| ==> pattern[k] == STARS
  {
    if pattern != [] {
      OnlyStars(m, pattern[1..]);
      assert pattern == [pattern[0]] + pattern[1..];
      var nothing: seq<string> := [];
      assert nothing[0..] == nothing;
    }
  }

  /** No suffix of what is left of the path matches what follows the stars. */
  lemma NoSuffix(m: Match, pattern: seq<string>, path: seq<string>, pa: nat)
    requires pattern != [] && pattern[0] == STARS && pa <= |path|
    requires forall k :: pa <= k <= |path| ==> !Matches(m, pattern[1..], path[k..])
    ensures !Matches(m, pattern, path[pa..])
  {
    forall k | 0 <= k <= |path[pa..]| ensures !Matches(m, pattern[1..], path[pa..][k..]) {
      assert path[pa..][k..] == path[pa + k..];
    }
  }

  lemma SomeSuffix(m: Match, pattern: seq<string>, path: seq<string>, pa: nat, k: nat)
    requires pattern != [] && pattern[0] == STARS && pa <= k <= |path|
    requires Matches(m, pattern[1..], path[k..])
    ensures Matches(m, pattern, path[pa..])
  {
    assert path[pa..][k - pa..] == path[k..];
  }

  /** matchDoubleGlob */
  method MatchDoubleGlob(m: Match, pattern: seq<string>, path: seq<string>) returns (matched: bool)
    ensures matched <==> Accepts(m, pattern, path)
    decreases |pattern|
  {
    MatchesIsAccepts(m, pattern, path);
    var pi, pa := 0, 0;
    while pi < |pattern| && pa < |path|
      invariant 0 <= pi <= |pattern| && 0 <= pa <= |path|
      invariant Matches(m, pattern, path) <==> Matches(m, pattern[pi..], path[pa..])
    {
      assert pattern[pi..][1..] == pattern[pi + 1..];
      if pattern[pi] == STARS {
        if pi == |pattern| - 1 {
          assert path[|path|..] == [] && pattern[pi..][1..] == [];
          SomeSuffix(m, pattern[pi..], path, pa, |path|);
          return true;
        }
        var tryPa := pa;
        while tryPa <= |path|
          invariant pa <= tryPa <= |path| + 1
          invariant forall k :: pa <= k < tryPa ==> !Matches(m, pattern[pi + 1..], path[k..])
        {
          var found := MatchDoubleGlob(m, pattern[pi + 1..], path[tryPa..]);
          MatchesIsAccepts(m, pattern[pi + 1..], path[tryPa..]);
          if found {
            SomeSuffix(m, pattern[pi..], path, pa, tryPa);
            return true;
          }
          tryPa := tryPa + 1;
        }
        NoSuffix(m, pattern[pi..], path, pa);
        return false;
      }
      assert path[pa..][1..] == path[pa + 1..];
      if !m(pattern[pi], path[pa]) {
        return false;
      }
      pi, pa := pi + 1, pa + 1;
    }
    ghost var reached := pi;
    while pi < |pattern| && pattern[pi] == STARS
      invariant reached <= pi <= |pattern|
      invariant forall k :: reached <= k < pi ==> pattern[k] == STARS
    {
      pi := pi + 1;
    }
    matched := pi == |pattern| && pa == |path|;
    if pa == |path| {
      assert path[pa..] == [];
      OnlyStars(m, pattern[reached..]);
      assert matched <==> forall k :: 0 <= k < |pattern[reached..]| ==> pattern[reached..][k] == STARS;
    } else {
      assert pattern[reached..] == [];
    }
  }
}
