/**
 The connection string an operator hands out: base64url of url|token, decoded
 after spaces and dashes are removed although a dash is a base64url digit.
 */
module ConnectionString {
  import opened Base64
  import opened Text
  import opened Wrappers

  const PIPE: Byte := 124
  const GREATER: Byte := 62
  const TILDE: Byte := 126

  /** EncodeConnectionInfo */
  function Encode(url: Data, token: Data): string {
    EncodeUrl(url + [PIPE] + token)
  }

  /** Everything before the first pipe. */
  function Head(data: Data): Data {
    if data == [] || data[0] == PIPE then [] else [data[0]] + Head(data[1..])
  }

  const SEPARATORS := {' ', '-'}

  /** DecodeConnectionInfo */
  function Decode(text: string): Result<(Data, Data)> {
    match DecodeUrl(Drop(text, SEPARATORS))
    case None => Err("invalid connection code")
    case Some(data) =>
      if PIPE !in data then Err("malformed connection code")
      else HeadShorter(data); Ok((Head(data), data[|Head(data)| + 1..]))
  }

  lemma {:induction false} HeadShorter(data: Data)
    ensures PIPE in data ==> |Head(data)| < |data| && data[|Head(data)|] == PIPE && data[..|Head(data)|] == Head(data)
    ensures PIPE !in Head(data)
  {
    if data == [] || data[0] == PIPE {
    } else {
      HeadShorter(data[1..]);
      assert data == [data[0]] + data[1..];
      if PIPE in data {
        assert data[..|Head(data)|] == [data[0]] + data[1..][..|Head(data[1..])|];
      }
    }
  }

  lemma {:induction false} HeadOf(url: Data, token: Data)
    ensures Head(url + [PIPE] + token) == Head(url)
    ensures |Head(url)| <= |url| && (Head(url) == url <==> PIPE !in url)
  {
    var data := url + [PIPE] + token;
    if url == [] || url[0] == PIPE {
    } else {
      HeadOf(url[1..], token);
      assert data[1..] == url[1..] + [PIPE] + token;
      assert url == [url[0]] + url[1..];
    }
  }

  /** Removing separators from an encoded string loses exactly the dashes among its digits. */
  lemma Cleaned(data: Data)
    ensures Drop(EncodeUrl(data), SEPARATORS) == EncodeUrl(data) <==> '-' !in EncodeUrl(data)
    ensures '-' in EncodeUrl(data) ==> |Drop(EncodeUrl(data), SEPARATORS)| < |EncodeUrl(data)|
  {
    var s := Sextets(data);
    var text := EncodeUrl(data);
    forall i: nat | i < |s| ensures |text| == |s| && text[i] != ' ' {
      SpelledAt(Url, s, i);
      DigitPlain(Url, s[i]);
    }
    SpelledRoundTrip(Url, s);
    DropLength(text, SEPARATORS);
  }

  /** A text shorter than the encoding of some data decodes to less than that data, if at all. */
  lemma ShorterDecodesToLess(text: string, data: Data)
    requires |text| < |EncodeUrl(data)|
    ensures DecodeUrl(text).Some? ==> |DecodeUrl(text).value| < |data|
  {
    SpelledRoundTrip(Url, Sextets(data));
    SextetsLength(data);
    DropLength(text, NEWLINES);
    ReadLength(Url, Drop(text, NEWLINES));
    match Read(Url, Drop(text, NEWLINES))
    case None =>
    case Some(s) => UnpackedLength(s);
  }

  /**
   What is decoded, with the separators gone, is the url, a pipe and the token, cut
   at the first pipe; anything else is an error.
   */
  lemma DecodeExactly(text: string, url: Data, token: Data)
    ensures Decode(text) == Ok((url, token)) <==>
      DecodeUrl(Drop(text, {' ', '-'})) == Some(url + ['|' as int] + token) && '|' as int !in url
    ensures Decode(text).Err? <==>
      DecodeUrl(Drop(text, {' ', '-'})).None? || '|' as int !in DecodeUrl(Drop(text, {' ', '-'})).value
  {
    match DecodeUrl(Drop(text, SEPARATORS))
    case None =>
    case Some(data) =>
      HeadShorter(data);
      if PIPE in data {
        assert data == Head(data) + [PIPE] + data[|Head(data)| + 1..];
      }
      if data == url + [PIPE] + token && PIPE !in url {
        HeadOf(url, token);
        assert data[|url|] == PIPE && data[|url| + 1..] == token;
      }
  }

  /** The round trip holds exactly when the encoding has no dash and the url no pipe. */
  lemma RoundTripExactly(url: Data, token: Data)
    ensures Decode(Encode(url, token)) == Ok((url, token)) <==>
      '-' !in Encode(url, token) && '|' as int !in url
  {
    var data := url + [PIPE] + token;
    var text := Encode(url, token);
    Cleaned(data);
    if '-' in text {
      ShorterDecodesToLess(Drop(text, SEPARATORS), data);
      match DecodeUrl(Drop(text, SEPARATORS))
      case None =>
      case Some(less) =>
        HeadShorter(less);
    } else {
      UrlRoundTrip(data);
      assert data[|url|] == PIPE;
      HeadOf(url, token);
      assert PIPE in data && data[|url| + 1..] == token;
    }
  }

  // ---------------------------------------------------------------- which payloads contain a dash

  predicate Ascii(data: Data) { forall i :: 0 <= i < |data| ==> data[i] < 128 }

  /** '>' or '~' in the last place of a group of three. */
  ghost predicate DashProne(data: Data) {
    exists i :: 0 <= i < |data| && i % 3 == 2 && (data[i] == '>' as int || data[i] == '~' as int)
  }

  /** For ASCII bytes only the fourth sextet of a group can be 62, and only through '>' or '~'. */
  lemma GroupDash(a: Byte, b: Byte, c: Byte)
    requires a < 128 && b < 128 && c < 128
    ensures var s := Pack(a, b, c);
      s[0] != 62 && s[1] != 62 && s[2] != 62 && (s[3] == 62 <==> c == GREATER || c == TILDE)
  {
  }

  lemma {:induction false} SextetsDash(data: Data)
    requires Ascii(data)
    ensures 62 in Sextets(data) <==> DashProne(data)
  {
    if |data| > 2 {
      var rest := data[3..];
      GroupDash(data[0], data[1], data[2]);
      SextetsDash(rest);
      if DashProne(rest) {
        var i :| 0 <= i < |rest| && i % 3 == 2 && (rest[i] == GREATER || rest[i] == TILDE);
        assert data[i + 3] == rest[i];
      }
      if DashProne(data) {
        var i :| 0 <= i < |data| && i % 3 == 2 && (data[i] == GREATER || data[i] == TILDE);
        assert i != 2 ==> data[i] == rest[i - 3];
      }
      assert Sextets(data) == Pack(data[0], data[1], data[2]) + Sextets(rest);
      assert Pack(data[0], data[1], data[2])[3] in Pack(data[0], data[1], data[2]);
    } else if data != [] {
      GroupDash(data[0], if |data| == 2 then data[1] else 0, 0);
    }
  }

  /**
   For ASCII url and token the encoding contains a dash exactly when '>' or '~'
   sits at a position of url|token that is 2 modulo 3.
   */
  lemma AsciiRoundTripExactly(url: Data, token: Data)
    requires Ascii(url) && Ascii(token)
    ensures Decode(Encode(url, token)) == Ok((url, token)) <==>
      !DashProne(url + ['|' as int] + token) && '|' as int !in url
  {
    var data := url + [PIPE] + token;
    var s, text := Sextets(data), Encode(url, token);
    SextetsDash(data);
    forall i: nat | i < |s| ensures |text| == |s| && (text[i] == '-' <==> s[i] == 62) {
      SpelledAt(Url, s, i);
      DigitPlain(Url, s[i]);
    }
    SpelledRoundTrip(Url, s);
    assert 62 in s ==> exists i :: 0 <= i < |s| && s[i] == 62 && text[i] == '-';
    RoundTripExactly(url, token);
  }

  /** `copied` is `text` with any number of spaces and dashes inserted anywhere. */
  predicate Spaced(text: string, copied: string)
    decreases |copied|
  {
    if copied == "" then text == ""
    else if copied[0] == ' ' || copied[0] == '-' then Spaced(text, copied[1..])
    else text != "" && text[0] == copied[0] && Spaced(text[1..], copied[1..])
  }

  /** A text without spaces and dashes is a copy of itself, and one more insertion keeps a copy one. */
  lemma {:induction false} SpacedSelf(text: string)
    requires ' ' !in text && '-' !in text
    ensures Spaced(text, text)
  {
    if text != "" {
      assert text[0] in text && forall c :: c in text[1..] ==> c in text;
      SpacedSelf(text[1..]);
    }
  }

  lemma {:induction false} SpacedInsert(text: string, a: string, c: char, b: string)
    requires Spaced(text, a + b) && (c == ' ' || c == '-')
    ensures Spaced(text, a + [c] + b)
    decreases |a|
  {
    var copied := a + [c] + b;
    if a == "" {
      assert copied[1..] == a + b;
    } else {
      assert copied[1..] == a[1..] + [c] + b && (a + b)[1..] == a[1..] + b;
      SpacedInsert(if a[0] == ' ' || a[0] == '-' then text else text[1..], a[1..], c, b);
    }
  }

  lemma {:induction false} SpacedCleans(text: string, copied: string)
    requires Spaced(text, copied)
    ensures Drop(copied, SEPARATORS) == text
    decreases |copied|
  {
    if copied == "" {
    } else if copied[0] == ' ' || copied[0] == '-' {
      SpacedCleans(text, copied[1..]);
      assert "" + text == text;
    } else {
      SpacedCleans(text[1..], copied[1..]);
      assert [copied[0]] + text[1..] == text;
    }
  }

  /** An encoding that has no dash may be copied with spaces and dashes inserted anywhere, as often as one likes. */
  lemma SurvivesSeparators(url: Data, token: Data, copied: string)
    requires '-' !in Encode(url, token) && '|' as int !in url && Spaced(Encode(url, token), copied)
    ensures Decode(copied) == Ok((url, token))
  {
    Cleaned(url + [PIPE] + token);
    RoundTripExactly(url, token);
    SpacedCleans(Encode(url, token), copied);
  }

  lemma EncodeHasNoSpace(url: Data, token: Data)
    ensures ' ' !in Encode(url, token)
  {
    var s, text := Sextets(url + [PIPE] + token), Encode(url, token);
    SpelledRoundTrip(Url, s);
    forall i: nat | i < |text| ensures text[i] != ' ' {
      SpelledAt(Url, s, i);
      DigitPlain(Url, s[i]);
    }
  }

  /** One space or dash inserted at any place does no harm. */
  lemma SurvivesOne(url: Data, token: Data, a: string, c: char, b: string)
    requires a + b == Encode(url, token) && '-' !in a + b && '|' as int !in url && (c == ' ' || c == '-')
    ensures Decode(a + [c] + b) == Ok((url, token))
  {
    EncodeHasNoSpace(url, token);
    SpacedSelf(a + b);
    SpacedInsert(a + b, a, c, b);
    SurvivesSeparators(url, token, a + [c] + b);
  }

  /** A tilde in the wrong place of a url loses the connection: "wx~" with an empty token. */
  lemma TildeBreaks()
    ensures Decode(Encode([119, 120, TILDE], [])) != Ok(([119, 120, TILDE], []))
  {
    var url: Data := [119, 120, TILDE];
    assert (url + [PIPE] + [])[2] == TILDE;
    AsciiRoundTripExactly(url, []);
  }
}
