/** Glob results in order of modification time, newest first. */
module Sort {
  import opened Wrappers

  type Time = int

  /** time.Time's zero value, which a file that cannot be examined gets. */
  const ZERO: Time := 0

  datatype FileWithTime = FileWithTime(path: string, modTime: Time)

  function ModTime(stat: string -> Option<Time>, path: string): Time {
    if stat(path).Some? then stat(path).value else ZERO
  }

  ghost predicate Descending(files: seq<FileWithTime>) {
    forall i, j :: 0 <= i < j < |files| ==> files[i].modTime >= files[j].modTime
  }

  /** The first `i` places are final. */
  ghost predicate Placed(s: seq<FileWithTime>, i: nat) {
    forall p, q :: 0 <= p < i && p < q < |s| ==> s[p].modTime >= s[q].modTime
  }

  /** Place `i` holds the newest of the places from `i` up to `j`. */
  ghost predicate Newest(s: seq<FileWithTime>, i: nat, j: nat) {
    forall q :: i < q < j && q < |s| ==> i < |s| && s[i].modTime >= s[q].modTime
  }

  ghost function Exchanged(s: seq<FileWithTime>, i: nat, j: nat): seq<FileWithTime>
    requires i < |s| && j < |s|
  {
    if s[j].modTime > s[i].modTime then s[i := s[j]][j := s[i]] else s
  }

  ghost function Paths(files: seq<FileWithTime>): seq<string> {
    seq(|files|, i requires 0 <= i < |files| => files[i].path)
  }

  /** The same files, and with them the same paths, in some order. */
  ghost predicate Permuted(s: seq<FileWithTime>, t: seq<FileWithTime>) {
    |s| == |t| && multiset(s) == multiset(t) && multiset(Paths(s)) == multiset(Paths(t))
  }

  lemma ExchangePermutes(s: seq<FileWithTime>, i: nat, j: nat)
    requires i < |s| && j < |s|
    ensures Permuted(Exchanged(s, i, j), s)
  {
    var p := Paths(s);
    if s[j].modTime > s[i].modTime {
      assert Paths(Exchanged(s, i, j)) == p[i := p[j]][j := p[i]];
    }
  }

  lemma ExchangeKeeps(s: seq<FileWithTime>, i: nat, j: nat)
    requires i < j < |s| && Placed(s, i) && Newest(s, i, j)
    ensures var t := Exchanged(s, i, j); |t| == |s| && Placed(t, i) && Newest(t, i, j + 1)
  {
  }

  lemma NextPlaced(s: seq<FileWithTime>, i: nat)
    requires i < |s| && Placed(s, i) && Newest(s, i, |s|)
    ensures Placed(s, i + 1)
  {
  }

  method Exchange(files: array<FileWithTime>, i: nat, j: nat)
    requires i < j < files.Length
    modifies files
    ensures files[..] == Exchanged(old(files[..]), i, j)
  {
    if files[j].modTime > files[i].modTime {
      files[i], files[j] := files[j], files[i];
    }
  }

  /** The two loops of sortByModTime. */
  method ExchangeSort(files: array<FileWithTime>)
    modifies files
    ensures Descending(files[..])
    ensures Permuted(files[..], old(files[..]))
  {
    for i := 0 to files.Length
      invariant Placed(files[..], i) && Permuted(files[..], old(files[..]))
    {
      for j := i + 1 to files.Length
        invariant Placed(files[..], i) && Newest(files[..], i, j) && Permuted(files[..], old(files[..]))
      {
        ExchangeKeeps(files[..], i, j);
        ExchangePermutes(files[..], i, j);
        Exchange(files, i, j);
      }
      NextPlaced(files[..], i);
    }
  }

  ghost function Timed(stat: string -> Option<Time>, paths: seq<string>): seq<FileWithTime> {
    seq(|paths|, i requires 0 <= i < |paths| => FileWithTime(paths[i], ModTime(stat, paths[i])))
  }

  /** sortByModTime: the same paths, newest first; files that cannot be examined count as the oldest. */
  method SortByModTime(stat: string -> Option<Time>, paths: seq<string>) returns (result: seq<string>)
    ensures multiset(result) == multiset(paths)
    ensures forall i, j :: 0 <= i < j < |result| ==> ModTime(stat, result[i]) >= ModTime(stat, result[j])
    ensures forall i, j :: 0 <= i < j < |result| && stat(result[j]).Some? ==>
      stat(result[j]).value <= if stat(result[i]).Some? then stat(result[i]).value else 0
    ensures forall i, j :: 0 <= i < j < |result| && stat(result[j]).None? && stat(result[i]).Some? ==>
      stat(result[i]).value >= 0
  {
    if |paths| <= 1 {
      return paths;
    }
    var files := new FileWithTime[|paths|](
      i requires 0 <= i < |paths| => FileWithTime(paths[i], ModTime(stat, paths[i])));
    assert files[..] == Timed(stat, paths) && Paths(files[..]) == paths;
    ghost var before := files[..];
    ExchangeSort(files);
    forall i | 0 <= i < files.Length ensures files[i].modTime == ModTime(stat, files[i].path) {
      assert files[..][i] in multiset(before);
    }
    result := seq(files.Length, i requires 0 <= i < files.Length reads files => files[i].path);
    assert result == Paths(files[..]);
  }
}
