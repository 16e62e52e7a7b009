/**
 The audit log: its hash chain gives every history away by its last hash, and
 the session summary counts every entry once.
 */
module Audit {
  /** One call of Log: the formatted time, and the fields as they are hashed. */
  datatype Record = Record(time: string, action: string, detail: string, result: string)

  const GENESIS := "GENESIS"
  const SEPARATOR := "|"

  function Middle(r: Record): string { r.action + SEPARATOR + r.detail }

  /** A record as it is hashed. */
  function Text(r: Record): string {
    r.time + SEPARATOR + (r.action + SEPARATOR + (r.detail + SEPARATOR + r.result))
  }

  /** What is hashed for a record that follows `prev`. */
  function HashInput(prev: string, r: Record): string { prev + SEPARATOR + Text(r) }

  /** `prevHash` after a history; `hash` is SHA-256 in hex, cut to 16 digits. */
  function Chain(hash: string -> string, log: seq<Record>): string {
    if log == [] then GENESIS else hash(HashInput(Chain(hash, log[..|log| - 1]), log[|log| - 1]))
  }

  function InputAt(hash: string -> string, log: seq<Record>, i: nat): string
    requires i < |log|
  {
    HashInput(Chain(hash, log[..i]), log[i])
  }

  predicate Piped(s: string) { '|' in s }

  predicate IsShortHash(s: string) {
    |s| == 16 && forall i :: 0 <= i < 16 ==> '0' <= s[i] <= '9' || 'a' <= s[i] <= 'f'
  }

  ghost predicate ShortHashes(hash: string -> string) { forall x :: IsShortHash(hash(x)) }

  /** No two different inputs hashed in these histories share their hash. */
  ghost predicate NoCollision(hash: string -> string, a: seq<Record>, b: seq<Record>) {
    forall i: nat, j: nat :: i < |a| && j < |b| && hash(InputAt(hash, a, i)) == hash(InputAt(hash, b, j)) ==>
      InputAt(hash, a, i) == InputAt(hash, b, j)
  }

  /** What is asked of the fields: no separator in them, except in the detail. */
  predicate Clean(r: Record) { !Piped(r.time) && !Piped(r.action) && !Piped(r.result) }

  lemma InputSpelled(prev: string, time: string, action: string, detail: string, result: string)
    ensures HashInput(prev, Record(time, action, detail, result)) ==
      prev + "|" + time + "|" + action + "|" + detail + "|" + result
  {
  }

  // ---------------------------------------------------------------- unique parsing

  lemma FirstField(p: string, x: string, q: string, y: string)
    requires p + SEPARATOR + x == q + SEPARATOR + y && !Piped(p) && !Piped(q)
    ensures p == q && x == y
  {
    var s, t := p + SEPARATOR + x, q + SEPARATOR + y;
    assert s[|p|] == '|' && t[|q|] == '|';
    assert |p| == |q|;
    assert p == s[..|p|] && q == t[..|q|];
    assert x == s[|p| + 1..] && y == t[|q| + 1..];
  }

  lemma LastField(x: string, p: string, y: string, q: string)
    requires x + SEPARATOR + p == y + SEPARATOR + q && !Piped(p) && !Piped(q)
    ensures p == q && x == y
  {
    var s, t := x + SEPARATOR + p, y + SEPARATOR + q;
    assert s[|x|] == '|' && t[|y|] == '|';
    assert |x| == |y|;
    assert x == s[..|x|] && y == t[..|y|];
    assert p == s[|x| + 1..] && q == t[|y| + 1..];
  }

  lemma Regrouped(a: string, b: string, c: string)
    ensures a + SEPARATOR + (b + SEPARATOR + c) == a + SEPARATOR + b + SEPARATOR + c
  {
  }

  /** Times and results can always be read back; what is left is the action and the detail run together. */
  lemma MiddleOf(r: Record, r': Record)
    requires !Piped(r.time) && !Piped(r'.time) && !Piped(r.result) && !Piped(r'.result)
    ensures Text(r) == Text(r') <==> r.time == r'.time && r.result == r'.result && Middle(r) == Middle(r')
  {
    Regrouped(r.action, r.detail, r.result);
    Regrouped(r'.action, r'.detail, r'.result);
    if Text(r) == Text(r') {
      FirstField(r.time, Middle(r) + SEPARATOR + r.result, r'.time, Middle(r') + SEPARATOR + r'.result);
      LastField(Middle(r), r.result, Middle(r'), r'.result);
    }
  }

  /** The five fields can be read back from the hash input, whatever the detail contains. */
  lemma UniqueParse(prev: string, r: Record, prev': string, r': Record)
    requires HashInput(prev, r) == HashInput(prev', r')
    requires !Piped(prev) && !Piped(prev') && Clean(r) && Clean(r')
    ensures prev == prev' && r == r'
  {
    FirstField(prev, Text(r), prev', Text(r'));
    MiddleOf(r, r');
    FirstField(r.action, r.detail, r'.action, r'.detail);
  }

  /** The length of what comes before the first separator. */
  function Cut(s: string): nat
    ensures Cut(s) <= |s| && !Piped(s[..Cut(s)])
    ensures Piped(s) ==> Cut(s) < |s| && s[Cut(s)] == '|'
  {
    if s == "" || s[0] == '|' then 0
    else
      assert s[1..][..Cut(s[1..])] == s[..1 + Cut(s[1..])][1..];
      1 + Cut(s[1..])
  }

  lemma CutSplits(s: string)
    requires Piped(s)
    ensures s == s[..Cut(s)] + SEPARATOR + s[Cut(s) + 1..]
  {
  }

  /** With one separator between them, two parts without any can be read back. */
  lemma Unpiped(a: string, d: string, a': string, d': string)
    requires a + SEPARATOR + d == a' + SEPARATOR + d' && !Piped(a) && !Piped(d)
    ensures a == a' && d == d'
  {
    var s, t := a + SEPARATOR + d, a' + SEPARATOR + d';
    assert t[|a'|] == '|' && s[|a'|] == '|';
    assert forall k :: 0 <= k < |s| && k != |a| ==> s[k] != '|' by {
      forall k | 0 <= k < |s| && k != |a| ensures s[k] != '|' {
        assert s[k] == if k < |a| then a[k] else d[k - |a| - 1];
      }
    }
    assert a == s[..|a|] && a' == t[..|a|] && d == s[|a| + 1..] && d' == t[|a| + 1..];
  }

  /** A record whose action or detail contains a separator, split in another place. */
  lemma Resplit(r: Record) returns (r': Record)
    requires Piped(r.action) || Piped(r.detail)
    ensures r' != r && r'.time == r.time && r'.result == r.result && Middle(r') == Middle(r)
  {
    if Piped(r.action) {
      var head, rest := r.action[..Cut(r.action)], r.action[Cut(r.action) + 1..];
      CutSplits(r.action);
      Regrouped(head, rest, r.detail);
      r' := r.(action := head, detail := rest + SEPARATOR + r.detail);
    } else {
      var head, rest := r.detail[..Cut(r.detail)], r.detail[Cut(r.detail) + 1..];
      CutSplits(r.detail);
      Regrouped(r.action, head, rest);
      r' := r.(action := r.action + SEPARATOR + head, detail := rest);
    }
  }

  /** A record is taken for another one exactly when its action or its detail contains a separator. */
  lemma AmbiguousExactly(r: Record)
    requires !Piped(r.time) && !Piped(r.result)
    ensures Piped(r.action) || Piped(r.detail) <==>
      exists r' :: r' != r && !Piped(r'.time) && !Piped(r'.result) && Text(r') == Text(r)
  {
    if Piped(r.action) || Piped(r.detail) {
      var r' := Resplit(r);
      MiddleOf(r', r);
    } else if r' :| r' != r && !Piped(r'.time) && !Piped(r'.result) && Text(r') == Text(r) {
      MiddleOf(r', r);
      Unpiped(r.action, r.detail, r'.action, r'.detail);
    }
  }

  // ---------------------------------------------------------------- entries the agent can write

  /** The name of a tool nobody knows stands for both action and detail, and such a request fails. */
  predicate Misnamed(r: Record) { r.action == r.detail && r.result == "ERROR" }

  /** An entry of the agent's log; `known` says which of the fixed actions comes with which details. */
  ghost predicate Loggable(known: (string, string) -> bool, r: Record) {
    known(r.action, r.detail) || Misnamed(r)
  }

  /** The name in `r` starts with the action of `r'`, whose detail is the rest of the name twice over. */
  ghost predicate Mimics(r: Record, r': Record) {
    && Misnamed(r) && r.time == r'.time && r'.result == "ERROR"
    && exists rest ::
         && r.action == r'.action + SEPARATOR + rest
         && r'.detail == rest + SEPARATOR + (r'.action + SEPARATOR + rest)
  }

  lemma MimicsShares(r: Record, r': Record)
    requires Mimics(r, r') && !Piped(r.time)
    ensures Text(r) == Text(r')
  {
    var rest :| r.action == r'.action + SEPARATOR + rest
      && r'.detail == rest + SEPARATOR + (r'.action + SEPARATOR + rest);
    Regrouped(r'.action, rest, r.detail);
    MiddleOf(r, r');
  }

  /** An unknown tool's entry against that of a fixed action, which contains no separator. */
  lemma MisnamedAgainst(r: Record, r': Record)
    requires Misnamed(r) && !Piped(r'.action) && r != r' && Text(r) == Text(r')
    requires !Piped(r.time) && !Piped(r'.time) && !Piped(r'.result)
    ensures Mimics(r, r')
  {
    MiddleOf(r, r');
    if Piped(r.action) {
      var head, rest := r.action[..Cut(r.action)], r.action[Cut(r.action) + 1..];
      CutSplits(r.action);
      Regrouped(head, rest, r.detail);
      FirstField(head, rest + SEPARATOR + r.detail, r'.action, r'.detail);
    } else {
      FirstField(r.action, r.detail, r'.action, r'.detail);
    }
  }

  lemma Doubled(x: string, y: string)
    ensures x + SEPARATOR + x == y + SEPARATOR + y ==> x == y
  {
    var s, t := x + SEPARATOR + x, y + SEPARATOR + y;
    if s == t {
      assert |x| == |y| && x == s[..|x|] && y == t[..|x|];
    }
  }

  /** Which different entries the agent can write share their hashed text: exactly an unknown tool's and its double. */
  lemma LoggableDoubles(known: (string, string) -> bool, r: Record, r': Record)
    requires forall action, detail :: known(action, detail) ==> !Piped(action)
    requires Loggable(known, r) && Loggable(known, r')
    requires !Piped(r.time) && !Piped(r'.time) && !Piped(r.result) && !Piped(r'.result)
    ensures Text(r) == Text(r') <==> r == r' || Mimics(r, r') || Mimics(r', r)
  {
    if Mimics(r, r') {
      MimicsShares(r, r');
    }
    if Mimics(r', r) {
      MimicsShares(r', r);
    }
    if Text(r) == Text(r') && r != r' {
      MiddleOf(r, r');
      if known(r'.action, r'.detail) && !known(r.action, r.detail) {
        MisnamedAgainst(r, r');
      } else if known(r.action, r.detail) && !known(r'.action, r'.detail) {
        MisnamedAgainst(r', r);
      } else if known(r.action, r.detail) {
        FirstField(r.action, r.detail, r'.action, r'.detail);
      } else {
        Doubled(r.action, r'.action);
      }
    }
  }

  /** A failed read of the file `x|FILE_READ|x`, and a request for the tool `FILE_READ|x`. */
  lemma ReadOrUnknownTool(hash: string -> string, log: seq<Record>, time: string)
    requires !Piped(time)
    ensures var read := Record(time, "FILE_READ", "x|FILE_READ|x", "ERROR");
      var misnamed := Record(time, "FILE_READ|x", "FILE_READ|x", "ERROR");
      Chain(hash, log + [read]) == Chain(hash, log + [misnamed])
  {
    var read := Record(time, "FILE_READ", "x|FILE_READ|x", "ERROR");
    var misnamed := Record(time, "FILE_READ|x", "FILE_READ|x", "ERROR");
    assert misnamed.action == read.action + SEPARATOR + "x";
    assert read.detail == "x" + SEPARATOR + (read.action + SEPARATOR + "x");
    MimicsShares(misnamed, read);
    assert (log + [read])[..|log|] == log == (log + [misnamed])[..|log|];
  }

  // ---------------------------------------------------------------- the chain

  lemma ChainPlain(hash: string -> string, log: seq<Record>)
    requires ShortHashes(hash)
    ensures !Piped(Chain(hash, log)) && |Chain(hash, log)| <= 16 && (Chain(hash, log) == GENESIS <==> log == [])
  {
    if log != [] {
      assert IsShortHash(Chain(hash, log));
    }
  }

  lemma NoCollisionBefore(hash: string -> string, a: seq<Record>, b: seq<Record>)
    requires NoCollision(hash, a, b) && a != [] && b != []
    ensures NoCollision(hash, a[..|a| - 1], b[..|b| - 1])
  {
    var a', b' := a[..|a| - 1], b[..|b| - 1];
    forall i: nat, j: nat | i < |a'| && j < |b'| && hash(InputAt(hash, a', i)) == hash(InputAt(hash, b', j))
      ensures InputAt(hash, a', i) == InputAt(hash, b', j)
    {
      assert a'[..i] == a[..i] && b'[..j] == b[..j];
      assert InputAt(hash, a', i) == InputAt(hash, a, i) && InputAt(hash, b', j) == InputAt(hash, b, j);
    }
  }

  /** The histories have the same hashed texts, entry by entry. */
  ghost predicate SameTexts(a: seq<Record>, b: seq<Record>) {
    |a| == |b| && forall i :: 0 <= i < |a| ==> Text(a[i]) == Text(b[i])
  }

  lemma {:induction false} TextsChain(hash: string -> string, a: seq<Record>, b: seq<Record>)
    requires SameTexts(a, b)
    ensures Chain(hash, a) == Chain(hash, b)
    decreases |a|
  {
    if a != [] {
      TextsChain(hash, a[..|a| - 1], b[..|b| - 1]);
    }
  }

  lemma {:induction false} ChainTexts(hash: string -> string, a: seq<Record>, b: seq<Record>)
    requires ShortHashes(hash) && NoCollision(hash, a, b) && Chain(hash, a) == Chain(hash, b)
    ensures SameTexts(a, b)
    decreases |a|
  {
    ChainPlain(hash, a);
    ChainPlain(hash, b);
    if a != [] {
      var a', b' := a[..|a| - 1], b[..|b| - 1];
      assert InputAt(hash, a, |a| - 1) == InputAt(hash, b, |b| - 1);
      ChainPlain(hash, a');
      ChainPlain(hash, b');
      FirstField(Chain(hash, a'), Text(a[|a| - 1]), Chain(hash, b'), Text(b[|b| - 1]));
      NoCollisionBefore(hash, a, b);
      ChainTexts(hash, a', b');
      assert a == a' + [a[|a| - 1]] && b == b' + [b[|b| - 1]];
    }
  }

  /** The last hash gives away the hashed text of every entry, and nothing more, whatever the fields contain. */
  lemma {:induction false} ChainExactly(hash: string -> string, a: seq<Record>, b: seq<Record>)
    requires ShortHashes(hash) && NoCollision(hash, a, b)
    ensures Chain(hash, a) == Chain(hash, b) <==> SameTexts(a, b)
  {
    if Chain(hash, a) == Chain(hash, b) {
      ChainTexts(hash, a, b);
    }
    if SameTexts(a, b) {
      TextsChain(hash, a, b);
    }
  }

  /** Two histories without separators outside their details that end in the same hash are the same history. */
  lemma {:induction false} TamperEvident(hash: string -> string, a: seq<Record>, b: seq<Record>)
    requires ShortHashes(hash) && NoCollision(hash, a, b)
    requires (forall r :: r in a ==> Clean(r)) && (forall r :: r in b ==> Clean(r))
    requires Chain(hash, a) == Chain(hash, b)
    ensures a == b
  {
    ChainExactly(hash, a, b);
    forall i | 0 <= i < |a| ensures a[i] == b[i] {
      assert Text(a[i]) == Text(b[i]) && a[i] in a && b[i] in b;
      UniqueParse("", a[i], "", b[i]);
    }
  }

  /**
   Two histories the agent can write end in the same hash if and only if they
   have the same entries, except that an unknown tool's entry and its double may
   stand for each other.
   */
  lemma {:induction false} LoggableTamperEvident(hash: string -> string, known: (string, string) -> bool,
                                                 a: seq<Record>, b: seq<Record>)
    requires ShortHashes(hash) && NoCollision(hash, a, b)
    requires forall action, detail :: known(action, detail) ==> !Piped(action)
    requires forall r :: r in a + b ==> Loggable(known, r) && !Piped(r.time) && !Piped(r.result)
    ensures Chain(hash, a) == Chain(hash, b) <==>
      && |a| == |b|
      && forall i :: 0 <= i < |a| ==> a[i] == b[i] || Mimics(a[i], b[i]) || Mimics(b[i], a[i])
  {
    ChainExactly(hash, a, b);
    forall i | 0 <= i < |a| && i < |b|
      ensures Text(a[i]) == Text(b[i]) <==> a[i] == b[i] || Mimics(a[i], b[i]) || Mimics(b[i], a[i])
    {
      assert a[i] in a + b && b[i] in a + b;
      LoggableDoubles(known, a[i], b[i]);
    }
  }

  // ---------------------------------------------------------------- counting

  const SESSION_START := "SESSION_START"
  const SESSION_END := "SESSION_END"

  /** The sum over all keys, taken in whatever order. */
  ghost function Total(m: map<string, nat>): nat
    decreases |m|
  {
    if m == map[] then 0
    else
      var k :| k in m;
      m[k] + Total(m - {k})
  }

  lemma {:induction false} TotalWithout(m: map<string, nat>, k: string)
    requires k in m
    ensures Total(m) == m[k] + Total(m - {k})
    decreases |m|
  {
    var x :| x in m && Total(m) == m[x] + Total(m - {x});
    if x != k {
      TotalWithout(m - {x}, k);
      TotalWithout(m - {k}, x);
      assert m - {x} - {k} == m - {k} - {x};
    }
  }

  function Count(log: seq<Entry>, action: string): nat {
    if log == [] then 0 else Count(log[..|log| - 1], action) + if log[|log| - 1].action == action then 1 else 0
  }

  function CountResult(log: seq<Entry>, result: string): nat {
    if log == [] then 0 else CountResult(log[..|log| - 1], result) + if log[|log| - 1].result == result then 1 else 0
  }

  function Actions(log: seq<Entry>): seq<string> {
    seq(|log|, i requires 0 <= i < |log| => log[i].action)
  }

  function Results(log: seq<Entry>): seq<string> {
    seq(|log|, i requires 0 <= i < |log| => log[i].result)
  }

  /** The counts are the multiplicities of the actions and of the results. */
  lemma {:induction false} CountsOccurrences(log: seq<Entry>, x: string)
    ensures Count(log, x) == multiset(Actions(log))[x] && CountResult(log, x) == multiset(Results(log))[x]
  {
    if log != [] {
      var before, e := log[..|log| - 1], log[|log| - 1];
      CountsOccurrences(before, x);
      assert Actions(log) == Actions(before) + [e.action] && Results(log) == Results(before) + [e.result];
    }
  }

  /** `counts` is the tally of the log: right for every action, and with no empty rows. */
  ghost predicate Tallies(counts: map<string, nat>, log: seq<Entry>) {
    forall action :: if action in counts then counts[action] == Count(log, action) > 0 else Count(log, action) == 0
  }

  function Bump(counts: map<string, nat>, action: string): map<string, nat> {
    counts[action := (if action in counts then counts[action] else 0) + 1]
  }

  lemma TotalBump(counts: map<string, nat>, action: string)
    ensures Total(Bump(counts, action)) == Total(counts) + 1
  {
    var bumped := Bump(counts, action);
    TotalWithout(bumped, action);
    assert bumped - {action} == counts - {action};
    if action in counts {
      TotalWithout(counts, action);
    } else {
      assert counts - {action} == counts;
    }
  }

  lemma TallyGrows(counts: map<string, nat>, log: seq<Entry>, e: Entry)
    requires Tallies(counts, log)
    ensures Tallies(Bump(counts, e.action), log + [e])
    ensures CountResult(log + [e], "ERROR") == CountResult(log, "ERROR") + if e.result == "ERROR" then 1 else 0
    ensures CountResult(log + [e], "DENIED") == CountResult(log, "DENIED") + if e.result == "DENIED" then 1 else 0
  {
    assert (log + [e])[..|log|] == log;
  }

  lemma {:induction false} CountsOf(log: seq<Entry>) returns (counts: map<string, nat>)
    ensures Tallies(counts, log) && Total(counts) == |log|
  {
    if log == [] {
      counts := map[];
    } else {
      var n := |log| - 1;
      var before := CountsOf(log[..n]);
      TallyGrows(before, log[..n], log[n]);
      TotalBump(before, log[n].action);
      assert log == log[..n] + [log[n]];
      counts := Bump(before, log[n].action);
    }
  }

  /** A log has one tally, and its rows add up to the number of entries. */
  lemma TallyTotal(counts: map<string, nat>, log: seq<Entry>)
    requires Tallies(counts, log)
    ensures Total(counts) == |log|
  {
    var other := CountsOf(log);
    assert counts == other;
  }

  /** The rows printed, with the session markers skipped, account for every other entry. */
  lemma PrintedRows(counts: map<string, nat>, log: seq<Entry>)
    requires Tallies(counts, log)
    ensures Total(counts) ==
      Total(counts - {"SESSION_START", "SESSION_END"}) + Count(log, "SESSION_START") + Count(log, "SESSION_END")
  {
    var rest := counts - {SESSION_START};
    if SESSION_START in counts {
      TotalWithout(counts, SESSION_START);
    } else {
      assert rest == counts;
    }
    assert counts - {SESSION_START, SESSION_END} == rest - {SESSION_END};
    assert SESSION_START != SESSION_END by { assert SESSION_START[8] != SESSION_END[8]; }
    if SESSION_END in counts {
      TotalWithout(rest, SESSION_END);
    } else {
      assert rest - {SESSION_END} == rest;
    }
  }

  // ---------------------------------------------------------------- the logger

  datatype Entry = Entry(time: string, action: string, detail: string, result: string, prevHash: string, hash: string)

  /** The detail as it is shown: at most 200 characters. */
  function Display(detail: string): string {
    if |detail| > 200 then detail[..200] + "..." else detail
  }

  ghost function EntryAt(hash: string -> string, history: seq<Record>, i: nat): Entry
    requires i < |history|
  {
    var r := history[i];
    Entry(r.time, r.action, Display(r.detail), r.result, Chain(hash, history[..i]), Chain(hash, history[..i + 1]))
  }

  ghost predicate EntriesMatch(hash: string -> string, entries: seq<Entry>, history: seq<Record>) {
    |entries| == |history| && forall i: nat :: i < |history| ==> entries[i] == EntryAt(hash, history, i)
  }

  lemma EntriesGrow(hash: string -> string, history: seq<Record>, r: Record, entries: seq<Entry>, entry: Entry)
    requires EntriesMatch(hash, entries, history)
    requires entry.prevHash == Chain(hash, history) && entry.hash == hash(HashInput(entry.prevHash, r))
    requires entry == Entry(r.time, r.action, Display(r.detail), r.result, entry.prevHash, entry.hash)
    ensures EntriesMatch(hash, entries + [entry], history + [r])
    ensures Chain(hash, history + [r]) == entry.hash
  {
    var grown := history + [r];
    assert grown[..|history|] == history && grown[..|history| + 1] == grown;
    forall i: nat | i < |history| ensures EntryAt(hash, grown, i) == EntryAt(hash, history, i) {
      assert grown[..i] == history[..i] && grown[..i + 1] == history[..i + 1];
    }
  }

  class Logger {
    /** SHA-256 in hex, cut to 16 digits. */
    const hash: string -> string
    var prevHash: string
    var entries: seq<Entry>
    /** Everything ever logged, with full details. */
    ghost var history: seq<Record>

    ghost predicate Valid()
      reads this
    {
      && ShortHashes(hash)
      && prevHash == Chain(hash, history)
      && EntriesMatch(hash, entries, history)
    }

    constructor (hash: string -> string)
      requires ShortHashes(hash)
      ensures Valid() && this.hash == hash && history == [] && entries == [] && prevHash == "GENESIS"
    {
      this.hash, prevHash, entries, history := hash, GENESIS, [], [];
    }

    method Log(now: string, action: string, detail: string, result: string) returns (entry: Entry)
      requires Valid()
      modifies this
      ensures Valid() && history == old(history) + [Record(now, action, detail, result)]
      ensures entries == old(entries) + [entry]
      ensures entry.time == now && entry.action == action && entry.result == result
      ensures entry.detail == if |detail| <= 200 then detail else detail[..200] + "..."
      ensures entry.prevHash == old(prevHash) && entry.hash == prevHash
      ensures prevHash == hash(old(prevHash) + "|" + now + "|" + action + "|" + detail + "|" + result)
    {
      ghost var before := history;
      var displayDetail := detail;
      if |displayDetail| > 200 {
        displayDetail := displayDetail[..200] + "...";
      }
      InputSpelled(prevHash, now, action, detail, result);
      var shortHash := hash(HashInput(prevHash, Record(now, action, detail, result)));
      ChainPlain(hash, history);
      assert |prevHash| <= 16;
      var prev := prevHash[..if |prevHash| < 16 then |prevHash| else 16];
      entry := Entry(now, action, displayDetail, result, prev, shortHash);
      prevHash := shortHash;
      entries := entries + [entry];
      EntriesGrow(hash, before, Record(now, action, detail, result), old(entries), entry);
      history := history + [Record(now, action, detail, result)];
    }

    /** The counting of SessionSummary; every entry lands in exactly one row. */
    method Summarize() returns (counts: map<string, nat>, errors: nat, denied: nat)
      ensures Tallies(counts, entries) && Total(counts) == |entries|
      ensures errors == multiset(Results(entries))["ERROR"] && denied == multiset(Results(entries))["DENIED"]
      ensures forall action :: action in counts ==> counts[action] == multiset(Actions(entries))[action] > 0
    {
      counts, errors, denied := map[], 0, 0;
      for i := 0 to |entries|
        invariant Tallies(counts, entries[..i]) && Total(counts) == i
        invariant errors == CountResult(entries[..i], "ERROR") && denied == CountResult(entries[..i], "DENIED")
      {
        var e := entries[i];
        assert entries[..i + 1] == entries[..i] + [e];
        TallyGrows(counts, entries[..i], e);
        TotalBump(counts, e.action);
        counts := Bump(counts, e.action);
        if e.result == "ERROR" {
          errors := errors + 1;
        }
        if e.result == "DENIED" {
          denied := denied + 1;
        }
      }
      assert entries[..|entries|] == entries;
      CountsOccurrences(entries, "ERROR");
      CountsOccurrences(entries, "DENIED");
      forall action | action in counts ensures counts[action] == multiset(Actions(entries))[action] > 0 {
        CountsOccurrences(entries, action);
      }
    }
  }
}
