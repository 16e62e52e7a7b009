/** Strings: decimal numbers, dropped characters, trimming and joining. */
module Text {
  /** The decimal digits of a number. */
  function Digits(n: nat): string {
    if n < 10 then [('0' as int + n) as char] else Digits(n / 10) + [('0' as int + n % 10) as char]
  }

  /** The number a string of decimal digits stands for. */
  function Number(digits: string): int {
    if digits == "" then 0
    else Number(digits[..|digits| - 1]) * 10 + (digits[|digits| - 1] as int - '0' as int)
  }

  /** The digits are decimal, stand for the number, and have no leading zero. */
  lemma {:induction false} DigitsAreDecimal(n: nat)
    ensures Digits(n) != "" && Number(Digits(n)) == n && (n > 0 ==> Digits(n)[0] != '0')
    ensures forall i :: 0 <= i < |Digits(n)| ==> '0' <= Digits(n)[i] <= '9'
  {
    var last := [('0' as int + n % 10) as char];
    if n < 10 {
      assert Number(last) == Number(last[..0]) * 10 + n;
    } else {
      DigitsAreDecimal(n / 10);
      assert Digits(n)[..|Digits(n)| - 1] == Digits(n / 10);
    }
  }

  lemma {:induction false} DigitsInjective(m: nat, n: nat)
    requires Digits(m) == Digits(n)
    ensures m == n
  {
    var a, b := Digits(m), Digits(n);
    assert a[|a| - 1] as int - '0' as int == m % 10 && b[|b| - 1] as int - '0' as int == n % 10;
    if m >= 10 && n >= 10 {
      assert Digits(m / 10) == a[..|a| - 1] && Digits(n / 10) == b[..|b| - 1];
      DigitsInjective(m / 10, n / 10);
    } else {
      DigitsNonEmpty(m / 10);
      DigitsNonEmpty(n / 10);
    }
  }

  lemma {:induction false} DigitsNonEmpty(n: nat)
    ensures |Digits(n)| > 0
  {
  }

  /** Characters of `text` that are not in `dropped`, in order. */
  function Drop(text: string, dropped: set<char>): string {
    if text == "" then ""
    else (if text[0] in dropped then "" else [text[0]]) + Drop(text[1..], dropped)
  }

  lemma {:induction false} DropLength(text: string, dropped: set<char>)
    ensures |Drop(text, dropped)| <= |text|
    ensures |Drop(text, dropped)| == |text| <==> forall i :: 0 <= i < |text| ==> text[i] !in dropped
    ensures |Drop(text, dropped)| == |text| ==> Drop(text, dropped) == text
  {
    if text != "" {
      DropLength(text[1..], dropped);
      assert text == [text[0]] + text[1..];
    }
  }

  lemma {:induction false} DropAppend(a: string, b: string, dropped: set<char>)
    ensures Drop(a + b, dropped) == Drop(a, dropped) + Drop(b, dropped)
  {
    if a == "" {
      assert a + b == b;
    } else {
      assert (a + b)[1..] == a[1..] + b;
      DropAppend(a[1..], b, dropped);
    }
  }

  /** strings.Join */
  function Join(parts: seq<string>, sep: string): string {
    if parts == [] then "" else if |parts| == 1 then parts[0] else parts[0] + sep + Join(parts[1..], sep)
  }

  lemma {:induction false} JoinAppend(a: seq<string>, b: seq<string>, sep: string)
    requires a != [] && b != []
    ensures Join(a + b, sep) == Join(a, sep) + sep + Join(b, sep)
  {
    JoinFirst(a + b, sep);
    if |a| == 1 {
      assert (a + b)[1..] == b;
    } else {
      assert (a + b)[1..] == a[1..] + b;
      JoinAppend(a[1..], b, sep);
      JoinFirst(a, sep);
      Regrouped(a[0], sep, Join(a[1..], sep), Join(b, sep));
    }
  }

  lemma JoinFirst(parts: seq<string>, sep: string)
    requires |parts| > 1
    ensures Join(parts, sep) == parts[0] + sep + Join(parts[1..], sep)
  {
  }

  lemma Regrouped(first: string, sep: string, x: string, y: string)
    ensures first + sep + (x + sep + y) == first + sep + x + sep + y
  {
  }

  /** unicode.IsSpace */
  predicate IsSpace(c: char) {
    '\t' <= c <= '\r' || c == ' ' || c == '\U{85}' || c == '\U{A0}' || c == '\U{1680}' || '\U{2000}' <= c <= '\U{200A}'
    || c == '\U{2028}' || c == '\U{2029}' || c == '\U{202F}' || c == '\U{205F}' || c == '\U{3000}'
  }

  function TrimLeft(s: string): string {
    if s != "" && IsSpace(s[0]) then TrimLeft(s[1..]) else s
  }

  function TrimRight(s: string): string {
    if s != "" && IsSpace(s[|s| - 1]) then TrimRight(s[..|s| - 1]) else s
  }

  /** strings.TrimSpace */
  function Trim(s: string): string { TrimRight(TrimLeft(s)) }

  predicate Trimmed(s: string) { s == "" || (!IsSpace(s[0]) && !IsSpace(s[|s| - 1])) }

  lemma {:induction false} TrimLeftShorter(s: string)
    ensures |TrimLeft(s)| <= |s| && (TrimLeft(s) == s <==> s == "" || !IsSpace(s[0]))
    ensures TrimLeft(s) != s ==> |TrimLeft(s)| < |s|
  {
    if s != "" && IsSpace(s[0]) {
      TrimLeftShorter(s[1..]);
    }
  }

  lemma {:induction false} TrimRightShorter(s: string)
    ensures |TrimRight(s)| <= |s| && (TrimRight(s) == s <==> s == "" || !IsSpace(s[|s| - 1]))
  {
    if s != "" && IsSpace(s[|s| - 1]) {
      TrimRightShorter(s[..|s| - 1]);
    }
  }

  lemma TrimShorter(s: string)
    ensures |Trim(s)| <= |s| && (Trim(s) == s <==> Trimmed(s))
  {
    TrimLeftShorter(s);
    TrimRightShorter(TrimLeft(s));
  }

  predicate Spaces(s: string) { forall i :: 0 <= i < |s| ==> IsSpace(s[i]) }

  /** The white space of ASCII: tab, newline, vertical tab, form feed, carriage return, space. */
  lemma AsciiSpaces(c: char)
    requires c < '\U{80}'
    ensures IsSpace(c) <==> c in {'\t', '\n', '\U{0B}', '\U{0C}', '\r', ' '}
  {
  }

  lemma {:induction false} TrimLeftSpaces(left: string, s: string)
    requires Spaces(left) && (s == "" || !IsSpace(s[0]))
    ensures TrimLeft(left + s) == s
  {
    if left == "" {
      assert left + s == s;
    } else {
      assert (left + s)[1..] == left[1..] + s;
      TrimLeftSpaces(left[1..], s);
    }
  }

  lemma {:induction false} TrimRightSpaces(s: string, right: string)
    requires Spaces(right) && (s == "" || !IsSpace(s[|s| - 1]))
    ensures TrimRight(s + right) == s
  {
    if right == "" {
      assert s + right == s;
    } else {
      assert (s + right)[..|s + right| - 1] == s + right[..|right| - 1];
      TrimRightSpaces(s, right[..|right| - 1]);
    }
  }

  /** Trimming takes off the white space around a trimmed core, and nothing else. */
  lemma TrimCore(left: string, core: string, right: string)
    requires Spaces(left) && Trimmed(core) && Spaces(right)
    ensures Trim(left + core + right) == core
  {
    assert left + core + right == left + (core + right);
    if core == "" {
      assert left + (core + right) == (left + right) + "";
      TrimLeftSpaces(left + right, "");
      assert TrimRight("") == "";
    } else {
      TrimLeftSpaces(left, core + right);
      TrimRightSpaces(core, right);
    }
  }

  lemma {:induction false} LeftOf(s: string) returns (left: string)
    ensures Spaces(left) && s == left + TrimLeft(s) && (TrimLeft(s) == "" || !IsSpace(TrimLeft(s)[0]))
  {
    left := "";
    if s != "" && IsSpace(s[0]) {
      left := LeftOf(s[1..]);
      assert s == [s[0]] + s[1..];
      left := [s[0]] + left;
    }
  }

  lemma {:induction false} RightOf(s: string) returns (right: string)
    ensures Spaces(right) && s == TrimRight(s) + right
    ensures TrimRight(s) == "" || !IsSpace(TrimRight(s)[|TrimRight(s)| - 1])
  {
    right := "";
    if s != "" && IsSpace(s[|s| - 1]) {
      right := RightOf(s[..|s| - 1]);
      assert s == s[..|s| - 1] + [s[|s| - 1]];
      right := right + [s[|s| - 1]];
    }
  }

  /** Every string is white space, its trimmed core, and white space. */
  lemma CoreOf(s: string) returns (left: string, right: string)
    ensures Spaces(left) && Spaces(right) && Trimmed(Trim(s)) && s == left + Trim(s) + right
  {
    left := LeftOf(s);
    right := RightOf(TrimLeft(s));
    assert TrimLeft(s) == Trim(s) + right;
    assert Trim(s) != "" ==> Trim(s)[0] == TrimLeft(s)[0];
  }
}
