/**
 One line of the CSV the event log query prints, split by a two-state machine:
 quotes toggle and vanish, commas separate outside of quotes.
 */
module Csv {
  import opened Text

  const QUOTE := '"'
  const QUOTES := {QUOTE}

  /** The machine: finished fields, the field being read, and whether inside quotes. */
  datatype Reader = Reader(fields: seq<string>, current: string, inQuotes: bool) {
    function Next(c: char): Reader {
      if c == QUOTE then Reader(fields, current, !inQuotes)
      else if c == ',' && !inQuotes then Reader(fields + [Trim(current)], "", inQuotes)
      else Reader(fields, current + [c], inQuotes)
    }

    function Reading(text: string): Reader
      decreases |text|
    {
      if text == "" then this else Next(text[0]).Reading(text[1..])
    }

    function Done(): seq<string> { fields + [Trim(current)] }
  }

  const START := Reader([], "", false)

  function Fields(line: string): seq<string> { START.Reading(Trim(line)).Done() }

  /** parseCSVLine */
  method ParseLine(line: string) returns (fields: seq<string>)
    ensures fields == Fields(line)
  {
    var text := Trim(line);
    fields := [];
    var current, inQuotes := "", false;
    for i := 0 to |text|
      invariant Reader(fields, current, inQuotes).Reading(text[i..]) == START.Reading(text)
    {
      var r := text[i];
      assert text[i..][0] == r && text[i..][1..] == text[i + 1..];
      if r == QUOTE {
        inQuotes := !inQuotes;
      } else if r == ',' && !inQuotes {
        fields := fields + [Trim(current)];
        current := "";
      } else {
        current := current + [r];
      }
    }
    fields := fields + [Trim(current)];
  }

  // ---------------------------------------------------------------- what the fields are

  /** How many quotes there are. */
  function Quotes(text: string): nat {
    if text == "" then 0
    else Quotes(text[..|text| - 1]) + if text[|text| - 1] == '"' then 1 else 0
  }

  /** The comma at place `i` has an even number of quotes before it, so it separates fields. */
  predicate Separates(text: string, i: nat) { i < |text| && text[i] == ',' && Quotes(text[..i]) % 2 == 0 }

  ghost predicate Unsplit(piece: string) { forall i: nat :: !Separates(piece, i) }

  /** No piece holds a comma that separates fields, and the commas between them do. */
  ghost predicate Whole(pieces: seq<string>) {
    && pieces != []
    && (forall k :: 0 <= k < |pieces| ==> Unsplit(pieces[k]))
    && (forall k :: 0 <= k < |pieces| - 1 ==> Quotes(pieces[k]) % 2 == 0)
  }

  /** The line cut at exactly the commas that separate fields. */
  ghost predicate Cuts(text: string, pieces: seq<string>) { Whole(pieces) && Join(pieces, ",") == text }

  /** What survives of a piece: its quotes are lost and its ends trimmed. */
  function Normalized(piece: string): string { Trim(Drop(piece, QUOTES)) }

  function AllNormalized(pieces: seq<string>): seq<string> {
    seq(|pieces|, i requires 0 <= i < |pieces| => Normalized(pieces[i]))
  }

  /** The field is the piece without its quotes and without the white space at its ends. */
  ghost predicate Unquoted(piece: string, field: string) {
    Trimmed(field) && exists left, right :: (
      Spaces(left) && Spaces(right) && Drop(piece, {'"'}) == left + field + right)
  }

  lemma NormalizedUnquotes(piece: string)
    ensures Unquoted(piece, Normalized(piece))
  {
    var left, right := CoreOf(Drop(piece, QUOTES));
  }

  lemma {:induction false} ReadingJoins(r: Reader, a: string, b: string)
    ensures r.Reading(a + b) == r.Reading(a).Reading(b)
    decreases |a|
  {
    if a == "" {
      assert a + b == b;
    } else {
      assert (a + b)[1..] == a[1..] + b;
      ReadingJoins(r.Next(a[0]), a[1..], b);
    }
  }

  lemma ReadingOne(r: Reader, c: char, rest: string)
    ensures r.Reading([c] + rest) == r.Next(c).Reading(rest)
  {
    assert ([c] + rest)[1..] == rest;
  }

  lemma ReadingLast(r: Reader, front: string, c: char)
    ensures r.Reading(front + [c]) == r.Reading(front).Next(c)
  {
    ReadingJoins(r, front, [c]);
    ReadingOne(r.Reading(front), c, "");
    assert [c] + "" == [c];
  }

  lemma UnsplitFront(piece: string)
    requires Unsplit(piece) && piece != ""
    ensures Unsplit(piece[..|piece| - 1]) && !Separates(piece, |piece| - 1)
  {
    var front := piece[..|piece| - 1];
    forall i: nat ensures !Separates(front, i) {
      if i < |front| {
        assert !Separates(piece, i) && front[..i] == piece[..i];
      }
    }
  }

  /** Reading one piece gathers what is not a quote, and ends inside quotes if their number is odd. */
  lemma {:induction false} ReadingPiece(done: seq<string>, piece: string)
    requires Unsplit(piece)
    ensures Reader(done, "", false).Reading(piece) == Reader(done, Drop(piece, QUOTES), Quotes(piece) % 2 == 1)
  {
    if piece != "" {
      var front, c := piece[..|piece| - 1], piece[|piece| - 1];
      UnsplitFront(piece);
      ReadingPiece(done, front);
      assert piece == front + [c];
      ReadingLast(Reader(done, "", false), front, c);
      DropAppend(front, [c], QUOTES);
      assert Drop([c], QUOTES) == if c == QUOTE then "" else [c];
    }
  }

  /** A whole piece and the comma after it finish one field. */
  lemma ReadingHead(done: seq<string>, piece: string, rest: string)
    requires Unsplit(piece) && Quotes(piece) % 2 == 0
    ensures Reader(done, "", false).Reading(piece + ([','] + rest)) ==
      Reader(done + [Normalized(piece)], "", false).Reading(rest)
  {
    ReadingPiece(done, piece);
    ReadingJoins(Reader(done, "", false), piece, [','] + rest);
    ReadingOne(Reader(done, Drop(piece, QUOTES), false), ',', rest);
  }

  lemma WholeRest(pieces: seq<string>)
    requires Whole(pieces) && |pieces| > 1
    ensures Whole(pieces[1..]) && Unsplit(pieces[0]) && Quotes(pieces[0]) % 2 == 0
  {
  }

  lemma NormalizedSplits(fields: seq<string>)
    requires fields != []
    ensures AllNormalized(fields) == [Normalized(fields[0])] + AllNormalized(fields[1..])
  {
  }

  lemma {:induction false} ReadingPieces(done: seq<string>, pieces: seq<string>)
    requires Whole(pieces)
    ensures Reader(done, "", false).Reading(Join(pieces, ",")).Done() == done + AllNormalized(pieces)
    decreases |pieces|
  {
    if |pieces| == 1 {
      ReadingPiece(done, pieces[0]);
      assert AllNormalized(pieces) == [Normalized(pieces[0])];
    } else {
      var rest := pieces[1..];
      JoinSplits(pieces);
      WholeRest(pieces);
      ReadingHead(done, pieces[0], Join(rest, ","));
      ReadingPieces(done + [Normalized(pieces[0])], rest);
      NormalizedSplits(pieces);
    }
  }

  lemma JoinSplits(pieces: seq<string>)
    requires |pieces| > 1
    ensures Join(pieces, ",") == pieces[0] + ([','] + Join(pieces[1..], ","))
  {
  }

  /** Every line can be cut like that. */
  lemma {:induction false} CutsExist(text: string) returns (pieces: seq<string>)
    ensures Cuts(text, pieces)
    decreases |text|
  {
    var i := 0;
    while i < |text| && !Separates(text, i)
      invariant 0 <= i <= |text| && forall j: nat :: j < i ==> !Separates(text, j)
    {
      i := i + 1;
    }
    var first := text[..i];
    forall j: nat ensures !Separates(first, j) {
      if j < i {
        assert !Separates(text, j) && first[..j] == text[..j];
      }
    }
    if i == |text| {
      assert first == text;
      pieces := [text];
    } else {
      var rest := CutsExist(text[i + 1..]);
      pieces := [first] + rest;
      assert pieces[1..] == rest && text == first + "," + text[i + 1..];
    }
  }

  /**
   The fields of any line: trim it, cut it at the commas that have an even number
   of quotes before them, and take the quotes and outer white space off each piece.
   */
  lemma FieldsAreCuts(line: string, pieces: seq<string>)
    requires Cuts(Trim(line), pieces)
    ensures |Fields(line)| == |pieces| && forall k :: 0 <= k < |pieces| ==> Unquoted(pieces[k], Fields(line)[k])
  {
    ReadingPieces([], pieces);
    forall k | 0 <= k < |pieces| ensures Unquoted(pieces[k], Fields(line)[k]) {
      NormalizedUnquotes(pieces[k]);
    }
  }

  // ---------------------------------------------------------------- the printer it undoes

  function Doubled(field: string): string {
    if field == "" then "" else (if field[0] == QUOTE then [QUOTE, QUOTE] else [field[0]]) + Doubled(field[1..])
  }

  /** A field in quotes, its own quotes doubled (section 2 of RFC 4180). */
  function Quoted(field: string): string { [QUOTE] + Doubled(field) + [QUOTE] }

  function Print(fields: seq<string>): string
    requires fields != []
  {
    if |fields| == 1 then Quoted(fields[0]) else Quoted(fields[0]) + ([','] + Print(fields[1..]))
  }

  lemma {:induction false} ReadingDoubled(r: Reader, field: string)
    requires r.inQuotes
    ensures r.Reading(Doubled(field)) == r.(current := r.current + Drop(field, QUOTES))
    decreases |field|
  {
    if field == "" {
      assert r.current + "" == r.current;
    } else {
      var tail := Doubled(field[1..]);
      if field[0] == QUOTE {
        assert Doubled(field) == [QUOTE] + ([QUOTE] + tail);
        ReadingOne(r, QUOTE, [QUOTE] + tail);
        ReadingOne(r.Next(QUOTE), QUOTE, tail);
        ReadingDoubled(r, field[1..]);
      } else {
        ReadingOne(r, field[0], tail);
        ReadingDoubled(r.Next(field[0]), field[1..]);
        assert r.current + [field[0]] + Drop(field[1..], QUOTES) == r.current + Drop(field, QUOTES);
      }
    }
  }

  lemma ReadingQuoted(r: Reader, field: string, rest: string)
    requires !r.inQuotes
    ensures r.Reading(Quoted(field) + rest) == r.(current := r.current + Drop(field, QUOTES)).Reading(rest)
  {
    var inner := r.(inQuotes := true);
    assert Quoted(field) + rest == [QUOTE] + (Doubled(field) + ([QUOTE] + rest));
    ReadingOne(r, QUOTE, Doubled(field) + ([QUOTE] + rest));
    ReadingJoins(inner, Doubled(field), [QUOTE] + rest);
    ReadingDoubled(inner, field);
    ReadingOne(inner.(current := r.current + Drop(field, QUOTES)), QUOTE, rest);
  }

  lemma ReadingField(done: seq<string>, field: string, rest: string)
    ensures Reader(done, "", false).Reading(Quoted(field) + rest) ==
      Reader(done, Drop(field, QUOTES), false).Reading(rest)
    ensures Reader(done, "", false).Reading(Quoted(field) + ([','] + rest))
      == Reader(done + [Normalized(field)], "", false).Reading(rest)
  {
    var r := Reader(done, "", false);
    assert r.current + Drop(field, QUOTES) == Drop(field, QUOTES);
    ReadingQuoted(r, field, rest);
    ReadingQuoted(r, field, [','] + rest);
    ReadingOne(Reader(done, Drop(field, QUOTES), false), ',', rest);
  }

  lemma {:induction false} ReadingPrinted(fields: seq<string>, done: seq<string>)
    requires fields != []
    ensures Reader(done, "", false).Reading(Print(fields)).Done() == done + AllNormalized(fields)
    decreases |fields|
  {
    if |fields| == 1 {
      assert Print(fields) == Quoted(fields[0]) + "";
      ReadingField(done, fields[0], "");
      assert AllNormalized(fields) == [Normalized(fields[0])];
    } else {
      NormalizedSplits(fields);
      ReadingField(done, fields[0], Print(fields[1..]));
      ReadingPrinted(fields[1..], done + [Normalized(fields[0])]);
    }
  }

  lemma {:induction false} PrintedEnds(fields: seq<string>)
    requires fields != []
    ensures |Print(fields)| >= 2 && Print(fields)[0] == QUOTE && Print(fields)[|Print(fields)| - 1] == QUOTE
  {
    if |fields| > 1 {
      PrintedEnds(fields[1..]);
    }
  }

  /**
   Parsing undoes printing, field for field, whatever commas and quotes the fields
   contain and whatever white space is around the line, as the carriage return of
   a line end: each field comes back without its quotes and its outer white space.
   */
  lemma ParseUndoesPrint(fields: seq<string>, left: string, right: string)
    requires fields != [] && Spaces(left) && Spaces(right)
    ensures |Fields(left + Print(fields) + right)| == |fields|
    ensures forall k :: 0 <= k < |fields| ==> Unquoted(fields[k], Fields(left + Print(fields) + right)[k])
    ensures Fields(left + Print(fields) + right) == AllNormalized(fields)
  {
    PrintedEnds(fields);
    TrimCore(left, Print(fields), right);
    ReadingPrinted(fields, []);
    forall k | 0 <= k < |fields| ensures Unquoted(fields[k], AllNormalized(fields)[k]) {
      NormalizedUnquotes(fields[k]);
    }
  }

  /** The fields come back unchanged exactly when none has a quote or outer space. */
  lemma {:induction false} RoundTripExactly(fields: seq<string>)
    requires fields != []
    ensures Fields(Print(fields)) == fields <==>
      forall i :: 0 <= i < |fields| ==> '"' !in fields[i] && Trimmed(fields[i])
  {
    ParseUndoesPrint(fields, "", "");
    assert "" + Print(fields) + "" == Print(fields);
    forall i | 0 <= i < |fields|
      ensures Normalized(fields[i]) == fields[i] <==> QUOTE !in fields[i] && Trimmed(fields[i])
    {
      DropLength(fields[i], QUOTES);
      TrimShorter(Drop(fields[i], QUOTES));
    }
  }
}
