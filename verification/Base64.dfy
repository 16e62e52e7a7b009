/**
 Base64 as the encoding/base64 package does it: the raw URL alphabet (section 5
 of RFC 4648, without padding) and the standard alphabet with padding (section 4).
 */
module Base64 {
  import opened Text
  import opened Wrappers

  type Byte = x: int | 0 <= x < 256
  type Sextet = x: int | 0 <= x < 64
  type Data = seq<Byte>

  // ---------------------------------------------------------------- sextets

  function Pack(a: Byte, b: Byte, c: Byte): seq<Sextet> {
    [a / 4, a % 4 * 16 + b / 16, b % 16 * 4 + c / 64, c % 64]
  }

  /** Three bytes to four sextets; a last group of one or two bytes to two or three. */
  function Sextets(data: Data): seq<Sextet> {
    if data == [] then []
    else if |data| == 1 then [data[0] / 4, data[0] % 4 * 16]
    else if |data| == 2 then [data[0] / 4, data[0] % 4 * 16 + data[1] / 16, data[1] % 16 * 4]
    else Pack(data[0], data[1], data[2]) + Sextets(data[3..])
  }

  function First(p: Sextet, q: Sextet): Byte { p * 4 + q / 16 }

  function Second(q: Sextet, r: Sextet): Byte { q % 16 * 16 + r / 4 }

  function Third(r: Sextet, s: Sextet): Byte { r % 4 * 64 + s }

  /** Not strict: the unused low bits of a short last group are ignored. */
  function Unpacked(s: seq<Sextet>): Option<Data> {
    if s == [] then Some([])
    else if |s| == 1 then None
    else if |s| == 2 then Some([First(s[0], s[1])])
    else if |s| == 3 then Some([First(s[0], s[1]), Second(s[1], s[2])])
    else
      match Unpacked(s[4..])
      case None => None
      case Some(rest) => Some([First(s[0], s[1]), Second(s[1], s[2]), Third(s[2], s[3])] + rest)
  }

  lemma GroupRoundTrip(a: Byte, b: Byte, c: Byte)
    ensures var s := Pack(a, b, c); First(s[0], s[1]) == a && Second(s[1], s[2]) == b && Third(s[2], s[3]) == c
  {
  }

  lemma UnpackedGroup(a: Byte, b: Byte, c: Byte, rest: seq<Sextet>)
    requires Unpacked(rest).Some?
    ensures Unpacked(Pack(a, b, c) + rest) == Some([a, b, c] + Unpacked(rest).value)
  {
    var s := Pack(a, b, c) + rest;
    GroupRoundTrip(a, b, c);
    assert s[4..] == rest;
  }

  lemma OneRoundTrip(a: Byte)
    ensures Unpacked(Sextets([a])) == Some([a])
  {
    GroupRoundTrip(a, 0, 0);
  }

  lemma TwoRoundTrip(a: Byte, b: Byte)
    ensures Unpacked(Sextets([a, b])) == Some([a, b])
  {
    GroupRoundTrip(a, b, 0);
  }

  lemma {:induction false} SextetsRoundTrip(data: Data)
    ensures Unpacked(Sextets(data)) == Some(data)
  {
    if data == [] {
    } else if |data| == 1 {
      OneRoundTrip(data[0]);
      assert data == [data[0]];
    } else if |data| == 2 {
      TwoRoundTrip(data[0], data[1]);
      assert data == [data[0], data[1]];
    } else {
      SextetsRoundTrip(data[3..]);
      UnpackedGroup(data[0], data[1], data[2], Sextets(data[3..]));
      assert data == [data[0], data[1], data[2]] + data[3..];
    }
  }

  lemma {:induction false} SextetsLength(data: Data)
    ensures |Sextets(data)| == |data| / 3 * 4 + if |data| % 3 == 0 then 0 else |data| % 3 + 1
  {
    if |data| > 2 {
      SextetsLength(data[3..]);
    }
  }

  lemma {:induction false} UnpackedLength(s: seq<Sextet>)
    ensures Unpacked(s).None? <==> |s| % 4 == 1
    ensures Unpacked(s).Some? ==> |Unpacked(s).value| == |s| / 4 * 3 + if |s| % 4 == 0 then 0 else |s| % 4 - 1
  {
    if |s| > 3 {
      UnpackedLength(s[4..]);
    }
  }

  // ---------------------------------------------------------------- alphabets

  datatype Alphabet = Url | Std {
    function Plus(): char { if Url? then '-' else '+' }
    function Slash(): char { if Url? then '_' else '/' }
  }

  function Digit(al: Alphabet, v: Sextet): char {
    if v < 26 then ('A' as int + v) as char
    else if v < 52 then ('a' as int + v - 26) as char
    else if v < 62 then ('0' as int + v - 52) as char
    else if v == 62 then al.Plus()
    else al.Slash()
  }

  function Value(al: Alphabet, c: char): Option<Sextet> {
    if 'A' <= c <= 'Z' then Some(c as int - 'A' as int)
    else if 'a' <= c <= 'z' then Some(c as int - 'a' as int + 26)
    else if '0' <= c <= '9' then Some(c as int - '0' as int + 52)
    else if c == al.Plus() then Some(62)
    else if c == al.Slash() then Some(63)
    else None
  }

  function Spelled(al: Alphabet, s: seq<Sextet>): string {
    if s == [] then "" else [Digit(al, s[0])] + Spelled(al, s[1..])
  }

  function Read(al: Alphabet, text: string): Option<seq<Sextet>> {
    if text == "" then Some([])
    else
      match (Value(al, text[0]), Read(al, text[1..]))
      case (Some(v), Some(rest)) => Some([v] + rest)
      case _ => None
  }

  lemma DigitRoundTrip(al: Alphabet, v: Sextet)
    ensures Value(al, Digit(al, v)) == Some(v)
  {
  }

  lemma {:induction false} SpelledRoundTrip(al: Alphabet, s: seq<Sextet>)
    ensures Read(al, Spelled(al, s)) == Some(s) && |Spelled(al, s)| == |s|
  {
    if s == [] {
    } else {
      DigitRoundTrip(al, s[0]);
      SpelledRoundTrip(al, s[1..]);
      assert Spelled(al, s)[0] == Digit(al, s[0]) && Spelled(al, s)[1..] == Spelled(al, s[1..]);
      assert s == [s[0]] + s[1..];
    }
  }

  lemma {:induction false} ReadLength(al: Alphabet, text: string)
    ensures Read(al, text).Some? ==> |Read(al, text).value| == |text|
  {
    if text == "" {
    } else {
      ReadLength(al, text[1..]);
    }
  }

  lemma {:induction false} SpelledAt(al: Alphabet, s: seq<Sextet>, i: nat)
    requires i < |s|
    ensures |Spelled(al, s)| == |s| && Spelled(al, s)[i] == Digit(al, s[i])
  {
    SpelledRoundTrip(al, s);
    if i > 0 {
      SpelledAt(al, s[1..], i - 1);
    }
  }

  // ---------------------------------------------------------------- strings

  /** RawURLEncoding.EncodeToString */
  function EncodeUrl(data: Data): string { Spelled(Url, Sextets(data)) }

  const NEWLINES := {'\r', '\n'}

  /** RawURLEncoding.DecodeString, which skips carriage returns and newlines. */
  function DecodeUrl(text: string): Option<Data> {
    match Read(Url, Drop(text, NEWLINES))
    case None => None
    case Some(s) => Unpacked(s)
  }

  /** The padding after the digits of `n` bytes. */
  function Padding(n: nat): string {
    if n % 3 == 0 then "" else if n % 3 == 1 then "==" else "="
  }

  /** StdEncoding.EncodeToString */
  function EncodeStd(data: Data): string { Spelled(Std, Sextets(data)) + Padding(|data|) }

  /** How many padding characters end a text whose length is a multiple of four. */
  function Padded(text: string): nat
    requires |text| % 4 == 0
    ensures Padded(text) <= |text|
  {
    if |text| > 0 && text[|text| - 1] == '=' then (if text[|text| - 2] == '=' then 2 else 1) else 0
  }

  /** StdEncoding.DecodeString: whole groups of four, the last one possibly padded. */
  function DecodeStd(text: string): Option<Data> {
    var clean := Drop(text, NEWLINES);
    if |clean| % 4 != 0 then None
    else
      match Read(Std, clean[..|clean| - Padded(clean)])
      case None => None
      case Some(s) => Unpacked(s)
  }

  lemma DigitPlain(al: Alphabet, v: Sextet)
    ensures Digit(al, v) !in NEWLINES && Digit(al, v) != '='
    ensures al.Url? ==> Digit(al, v) != ' ' && (Digit(al, v) == '-' <==> v == 62)
  {
  }

  ghost predicate Plain(text: string) { forall i :: 0 <= i < |text| ==> text[i] !in NEWLINES && text[i] != '=' }

  lemma SpelledPlain(al: Alphabet, s: seq<Sextet>)
    ensures Plain(Spelled(al, s)) && |Spelled(al, s)| == |s|
  {
    SpelledRoundTrip(al, s);
    forall i: nat | i < |s| ensures Spelled(al, s)[i] !in NEWLINES && Spelled(al, s)[i] != '=' {
      SpelledAt(al, s, i);
      DigitPlain(al, s[i]);
    }
  }

  lemma UrlRoundTrip(data: Data)
    ensures DecodeUrl(EncodeUrl(data)) == Some(data)
  {
    var s := Sextets(data);
    SpelledPlain(Url, s);
    SpelledRoundTrip(Url, s);
    DropLength(Spelled(Url, s), NEWLINES);
    SextetsRoundTrip(data);
  }

  /** Plain digits padded to a multiple of four are found again. */
  lemma PaddedFinds(digits: string, pad: string)
    requires Plain(digits) && (|digits| + |pad|) % 4 == 0 && pad in {"", "=", "=="} && (digits == "" ==> pad == "")
    ensures var text := digits + pad;
      Drop(text, NEWLINES) == text && text[..|text| - Padded(text)] == digits
  {
    var text := digits + pad;
    forall i | 0 <= i < |text| ensures text[i] !in NEWLINES {
      if i < |digits| {
        assert text[i] == digits[i];
      } else {
        assert text[i] == pad[i - |digits|];
      }
    }
    DropLength(text, NEWLINES);
    if digits != "" {
      assert text[|digits| - 1] == digits[|digits| - 1];
    }
  }

  lemma PaddingFits(data: Data)
    ensures (|Sextets(data)| + |Padding(|data|)|) % 4 == 0 && Padding(|data|) in {"", "=", "=="}
    ensures Sextets(data) == [] ==> Padding(|data|) == ""
  {
    SextetsLength(data);
    var groups, tail := |data| / 3, |data| % 3;
    assert |Sextets(data)| + |Padding(|data|)| == 4 * (if tail == 0 then groups else groups + 1);
    WholeGroups(if tail == 0 then groups else groups + 1);
  }

  lemma WholeGroups(n: nat)
    ensures 4 * n % 4 == 0
  {
  }

  /** Decoding inverts encoding for every byte sequence, empty included. */
  lemma StdRoundTrip(data: Data)
    ensures DecodeStd(EncodeStd(data)) == Some(data)
  {
    var s := Sextets(data);
    SpelledPlain(Std, s);
    PaddingFits(data);
    PaddedFinds(Spelled(Std, s), Padding(|data|));
    SpelledRoundTrip(Std, s);
    SextetsRoundTrip(data);
  }

  // ---------------------------------------------------------------- what the encoding is

  const UPPER := "ABCDEFGHIJKLMNOPQRSTUVWXYZ"
  const LOWER := "abcdefghijklmnopqrstuvwxyz"
  const DECIMAL := "0123456789"

  /** The alphabets of sections 4 and 5 of RFC 4648. */
  function Table(al: Alphabet): (table: string)
    ensures |table| == 64
  {
    UPPER + LOWER + DECIMAL + if al.Std? then "+/" else "-_"
  }

  lemma UpperAt(v: nat)
    requires v < 26
    ensures UPPER[v] as int == 'A' as int + v
  {
  }

  lemma LowerAt(v: nat)
    requires v < 26
    ensures LOWER[v] as int == 'a' as int + v
  {
  }

  lemma DecimalAt(v: nat)
    requires v < 10
    ensures DECIMAL[v] as int == '0' as int + v
  {
  }

  lemma DigitInTable(al: Alphabet, v: Sextet)
    ensures Digit(al, v) == Table(al)[v]
  {
    if v < 26 {
      UpperAt(v);
    } else if v < 52 {
      LowerAt(v - 26);
    } else if v < 62 {
      DecimalAt(v - 52);
    }
  }

  lemma ValueInTable(al: Alphabet, c: char)
    ensures Value(al, c).Some? <==> c in Table(al)
  {
    if Value(al, c).Some? {
      DigitInTable(al, Value(al, c).value);
      DigitOfValue(al, c);
    }
    if c in Table(al) {
      var v :| 0 <= v < |Table(al)| && Table(al)[v] == c;
      DigitInTable(al, v);
      DigitRoundTrip(al, v);
    }
  }

  lemma DigitOfValue(al: Alphabet, c: char)
    requires Value(al, c).Some?
    ensures Digit(al, Value(al, c).value) == c
  {
  }

  ghost predicate InTable(al: Alphabet, text: string) { forall c :: c in text ==> c in Table(al) }

  lemma InTableSplits(al: Alphabet, text: string)
    requires text != ""
    ensures InTable(al, text) <==> text[0] in Table(al) && InTable(al, text[1..])
  {
    assert text == [text[0]] + text[1..];
  }

  lemma {:induction false} ReadExactly(al: Alphabet, text: string)
    ensures Read(al, text).Some? <==> InTable(al, text)
  {
    if text != "" {
      ValueInTable(al, text[0]);
      ReadExactly(al, text[1..]);
      InTableSplits(al, text);
    }
  }

  /** A text decodes exactly if, newlines apart, it has digits only and no lone digit at the end. */
  lemma UrlDecodesExactly(text: string)
    ensures var clean := Drop(text, {'\r', '\n'});
      DecodeUrl(text).Some? <==> |clean| % 4 != 1 && InTable(Url, clean)
  {
    var clean := Drop(text, NEWLINES);
    ReadExactly(Url, clean);
    ReadLength(Url, clean);
    match Read(Url, clean)
    case None =>
    case Some(s) => UnpackedLength(s);
  }

  /** Up to two padding signs. */
  ghost predicate Signs(pad: string) { |pad| <= 2 && forall c :: c in pad ==> c == '=' }

  /** Digits of the standard table and padding, in groups of four. */
  ghost predicate Padable(digits: string, pad: string) {
    Signs(pad) && (|digits| + |pad|) % 4 == 0 && InTable(Std, digits)
  }

  lemma LastIsDigit(digits: string)
    requires InTable(Std, digits) && digits != ""
    ensures digits[|digits| - 1] != '='
  {
    var c := digits[|digits| - 1];
    assert c in digits;
    ValueInTable(Std, c);
  }

  lemma PaddedSplits(text: string)
    requires |text| % 4 == 0
    ensures var n := |text| - Padded(text);
      text == text[..n] + text[n..] && Signs(text[n..])
  {
  }

  lemma PaddedIs(digits: string, pad: string)
    requires Signs(pad) && (|digits| + |pad|) % 4 == 0 && (digits != "" ==> digits[|digits| - 1] != '=')
    ensures Padded(digits + pad) == |pad|
  {
    var text := digits + pad;
    if digits != "" {
      assert text[|digits| - 1] == digits[|digits| - 1];
    }
    if pad != "" {
      assert pad[0] in pad && pad[|pad| - 1] in pad;
      assert text[|text| - 1] == pad[|pad| - 1] && text[|digits|] == pad[0];
    }
  }

  lemma UnpacksWhole(s: seq<Sextet>, pad: nat)
    requires pad <= 2 && (|s| + pad) % 4 == 0
    ensures Unpacked(s).Some?
  {
    UnpackedLength(s);
  }

  lemma DecodesTo(text: string, digits: string, pad: string)
    requires |text| % 4 == 0 && text == digits + pad && |pad| == Padded(text)
    ensures text[..|text| - Padded(text)] == digits
    ensures InTable(Std, digits) <==> Read(Std, digits).Some? && Unpacked(Read(Std, digits).value).Some?
  {
    ReadExactly(Std, digits);
    ReadLength(Std, digits);
    if Read(Std, digits).Some? {
      UnpacksWhole(Read(Std, digits).value, |pad|);
    }
  }

  lemma DecodedIsPadable(clean: string)
    requires |clean| % 4 == 0
    ensures var n := |clean| - Padded(clean);
      Read(Std, clean[..n]).Some? && Unpacked(Read(Std, clean[..n]).value).Some? <==> Padable(clean[..n], clean[n..])
  {
    var n := |clean| - Padded(clean);
    PaddedSplits(clean);
    DecodesTo(clean, clean[..n], clean[n..]);
  }

  lemma PadableIsPadded(clean: string, digits: string, pad: string)
    requires Padable(digits, pad) && clean == digits + pad
    ensures |clean| % 4 == 0 && var n := |clean| - Padded(clean); clean[..n] == digits && clean[n..] == pad
  {
    if digits != "" {
      LastIsDigit(digits);
    }
    PaddedIs(digits, pad);
  }

  /** A standard text decodes exactly if, newlines apart, it is digits and padding in groups of four. */
  lemma StdDecodesExactly(text: string)
    ensures DecodeStd(text).Some? <==>
      exists digits, pad :: Padable(digits, pad) && Drop(text, {'\r', '\n'}) == digits + pad
  {
    var clean := Drop(text, NEWLINES);
    if |clean| % 4 == 0 {
      DecodedIsPadable(clean);
      PaddedSplits(clean);
    }
    if digits, pad :| Padable(digits, pad) && clean == digits + pad {
      PadableIsPadded(clean, digits, pad);
    }
  }

  /** The numbers that four sextets and three bytes stand for, most significant first. */
  function OfSextets(p: int, q: int, r: int, s: int): int { ((p * 64 + q) * 64 + r) * 64 + s }

  function OfBytes(a: int, b: int, c: int): int { (a * 256 + b) * 256 + c }

  lemma PackValue(a: Byte, b: Byte, c: Byte)
    ensures var s := Pack(a, b, c); OfSextets(s[0], s[1], s[2], s[3]) == OfBytes(a, b, c)
  {
  }

  /** Each group of three bytes is spelled by four sextets that stand for the same number. */
  lemma {:induction false} GroupSpelled(data: Data, g: nat)
    requires 3 * g + 2 < |data|
    ensures var s, i, k := Sextets(data), 4 * g, 3 * g;
      i + 3 < |s| && OfSextets(s[i], s[i + 1], s[i + 2], s[i + 3]) == OfBytes(data[k], data[k + 1], data[k + 2])
  {
    if g == 0 {
      PackValue(data[0], data[1], data[2]);
    } else {
      GroupSpelled(data[3..], g - 1);
    }
  }

  lemma PairValue(a: Byte, b: Byte)
    ensures OfSextets(a / 4, a % 4 * 16 + b / 16, b % 16 * 4, 0) == OfBytes(a, b, 0)
  {
  }

  /** One or two bytes left over are followed by zero bits, up to two or three sextets. */
  lemma {:induction false} TailSpelled(data: Data)
    requires |data| % 3 != 0
    ensures var s, i, k := Sextets(data), |data| / 3 * 4, |data| / 3 * 3;
      if |data| % 3 == 1 then |s| == i + 2 && OfSextets(s[i], s[i + 1], 0, 0) == OfBytes(data[k], 0, 0)
      else |s| == i + 3 && OfSextets(s[i], s[i + 1], s[i + 2], 0) == OfBytes(data[k], data[k + 1], 0)
  {
    if |data| > 2 {
      TailSpelled(data[3..]);
    } else {
      PairValue(data[0], if |data| == 2 then data[1] else 0);
    }
  }

  lemma SpelledInTable(al: Alphabet, s: seq<Sextet>)
    ensures |Spelled(al, s)| == |s| && forall i :: 0 <= i < |s| ==> Spelled(al, s)[i] == Table(al)[s[i]]
  {
    SpelledRoundTrip(al, s);
    forall i: nat | i < |s| ensures Spelled(al, s)[i] == Table(al)[s[i]] {
      SpelledAt(al, s, i);
      DigitInTable(al, s[i]);
    }
  }

  /** The raw form is the table's digits for the sextets. */
  lemma UrlText(data: Data)
    ensures var s, text := Sextets(data), EncodeUrl(data);
      |text| == |s| && forall i :: 0 <= i < |s| ==> text[i] == Table(Url)[s[i]]
  {
    SpelledInTable(Url, Sextets(data));
  }

  lemma GroupsOfThree(n: nat)
    ensures (n + 2) / 3 == n / 3 + if n % 3 == 0 then 0 else 1
  {
  }

  lemma PaddingLength(n: nat)
    ensures |Padding(n)| == if n % 3 == 0 then 0 else 3 - n % 3
  {
  }

  lemma StdLength(data: Data)
    ensures |Sextets(data)| + |Padding(|data|)| == (|data| + 2) / 3 * 4
  {
    SextetsLength(data);
    PaddingLength(|data|);
    GroupsOfThree(|data|);
  }

  /** The standard form has the same for its own table, and then padding up to groups of four. */
  lemma StdText(data: Data)
    ensures var s, text := Sextets(data), EncodeStd(data);
      && |s| <= |text| == (|data| + 2) / 3 * 4
      && (forall i :: 0 <= i < |s| ==> text[i] == Table(Std)[s[i]])
      && (forall i :: |s| <= i < |text| ==> text[i] == '=')
  {
    StdLength(data);
    SpelledInTable(Std, Sextets(data));
  }
}
