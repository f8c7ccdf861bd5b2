/** Scalars and strings of JSON texts: sections 2, 6 and 7 of RFC 8259. */
module JsonGrammar {
  import opened Scan

  // ---- Numbers ----

  predicate AllDigits(s: string) {
    DigitsLength(s) == |s|
  }

  /** Nothing, or an exponent. */
  predicate IsExponent(s: string) {
    s == "" ||
    (&& (s[0] == 'e' || s[0] == 'E')
     && var digits := if |s| > 1 && (s[1] == '+' || s[1] == '-') then s[2..] else s[1..];
        digits != "" && AllDigits(digits))
  }

  /** What may follow the integer part. */
  predicate IsRest(s: string) {
    if s != "" && s[0] == '.' then
      var n := DigitsLength(s[1..]);
      n > 0 && IsExponent(s[1 + n..])
    else IsExponent(s)
  }

  function Unsigned(s: string): string {
    if s != "" && s[0] == '-' then s[1..] else s
  }

  predicate IsNumber(s: string) {
    var t := Unsigned(s);
    var n := DigitsLength(t);
    n > 0 && (t[0] == '0' ==> n == 1) && IsRest(t[n..])
  }

  predicate IsNumberChar(c: char) {
    IsDigit(c) || c == '-' || c == '+' || c == '.' || c == 'e' || c == 'E'
  }

  predicate NumberChars(s: string) {
    forall k :: 0 <= k < |s| ==> IsNumberChar(s[k])
  }

  lemma CharsJoin(s: string, n: nat)
    requires n <= |s| && NumberChars(s[..n]) && NumberChars(s[n..])
    ensures NumberChars(s)
  {
    forall k | 0 <= k < |s| ensures IsNumberChar(s[k]) {
      assert s[k] == if k < n then s[..n][k] else s[n..][k - n];
    }
  }

  lemma DigitsAreNumberChars(s: string)
    ensures NumberChars(s[..DigitsLength(s)])
  {
  }

  lemma ExponentChars(s: string)
    requires IsExponent(s)
    ensures NumberChars(s)
  {
    if s != "" {
      var n := if |s| > 1 && (s[1] == '+' || s[1] == '-') then 2 else 1;
      DigitsAreNumberChars(s[n..]);
      assert s[n..][..|s| - n] == s[n..];
      CharsJoin(s, n);
    }
  }

  lemma RestChars(s: string)
    requires IsRest(s)
    ensures NumberChars(s)
  {
    if s != "" && s[0] == '.' {
      var n := DigitsLength(s[1..]);
      DigitsAreNumberChars(s[1..]);
      ExponentChars(s[1 + n..]);
      assert s[1..][n..] == s[1 + n..];
      CharsJoin(s[1..], n);
      CharsJoin(s, 1);
    } else {
      ExponentChars(s);
    }
  }

  lemma NumberHasChars(s: string)
    requires IsNumber(s)
    ensures s != "" && NumberChars(s)
  {
    var t := Unsigned(s);
    var n := DigitsLength(t);
    DigitsAreNumberChars(t);
    RestChars(t[n..]);
    CharsJoin(t, n);
  }

  /** A printed number has no leading zero. */
  lemma {:induction false} DecimalStarts(n: nat)
    ensures Decimal(n)[0] == '0' ==> |Decimal(n)| == 1
    ensures n > 0 ==> Decimal(n)[0] != '0'
  {
    if n < 10 {
    } else {
      DecimalStarts(n / 10);
    }
  }

  function Signed(i: int): string {
    if i < 0 then "-" + Decimal(-i) else Decimal(i)
  }

  lemma SignedIsNumber(i: int)
    ensures IsNumber(Signed(i))
  {
    var n := if i < 0 then -i else i;
    DecimalStarts(n);
    DigitsLengthIs(Decimal(n), "");
    assert Decimal(n) + "" == Decimal(n);
    assert Unsigned(Signed(i)) == Decimal(n);
    assert Decimal(n)[|Decimal(n)|..] == "";
  }

  // ---- Values that are no objects, arrays or strings ----

  predicate IsScalar(s: string) {
    s == "true" || s == "false" || s == "null" || IsNumber(s)
  }

  predicate IsBlank(c: char) {
    c == ' ' || c == '\t' || c == '\n' || c == '\r'
  }

  predicate InScalar(c: char) {
    c != ',' && c != '}' && !IsBlank(c)
  }

  lemma ScalarHasChars(s: string)
    requires IsScalar(s)
    ensures s != "" && forall k :: 0 <= k < |s| ==> InScalar(s[k])
  {
    if IsNumber(s) {
      NumberHasChars(s);
    }
  }

  // ---- Strings ----

  predicate IsHex(c: char) {
    IsDigit(c) || 'a' <= c <= 'f' || 'A' <= c <= 'F'
  }

  /** The length of the first character of a string as it is written, 0 if there is none. */
  function CharLength(s: string): (n: nat)
    ensures n <= |s|
  {
    if s == "" || s[0] == '"' || s[0] < ' ' then 0
    else if s[0] != '\\' then 1
    else if |s| >= 2 && s[1] in "\"\\/bfnrt" then 2
    else if |s| >= 6 && s[1] == 'u' && IsHex(s[2]) && IsHex(s[3]) && IsHex(s[4]) && IsHex(s[5]) then 6
    else 0
  }

  function StringLength(s: string): (n: nat)
    ensures n <= |s|
  {
    var c := CharLength(s);
    if c == 0 then 0 else c + StringLength(s[c..])
  }

  /** What may stand between the quotes. */
  predicate IsBody(s: string) {
    StringLength(s) == |s|
  }

  /** The first character does not depend on what comes after it. */
  lemma CharLengthPrefix(s: string, rest: string)
    requires CharLength(s) > 0
    ensures CharLength(s + rest) == CharLength(s)
  {
  }

  lemma CharLengthCut(s: string, n: nat)
    requires 0 < CharLength(s) <= n <= |s|
    ensures CharLength(s[..n]) == CharLength(s)
  {
  }

  lemma {:induction false} BodyThenQuote(s: string, quoted: string)
    requires IsBody(s) && quoted != "" && quoted[0] == '"'
    ensures StringLength(s + quoted) == |s|
    decreases |s|
  {
    if s == "" {
      assert s + quoted == quoted;
    } else {
      var c := CharLength(s);
      CharLengthPrefix(s, quoted);
      assert IsBody(s[c..]);
      BodyThenQuote(s[c..], quoted);
      assert (s + quoted)[c..] == s[c..] + quoted;
      assert StringLength(s + quoted) == c + StringLength(s[c..] + quoted);
    }
  }

  lemma {:induction false} StringIsBody(s: string)
    ensures IsBody(s[..StringLength(s)])
    decreases |s|
  {
    var c, n := CharLength(s), StringLength(s);
    if c == 0 {
    } else {
      StringIsBody(s[c..]);
      CharLengthCut(s, n);
      assert s[..n][c..] == s[c..][..n - c];
    }
  }

  /** The characters a string stands for, as numbers; `\u` gives one of 16 bits. */
  function Meaning(s: string): (codes: seq<int>)
    requires IsBody(s)
    ensures |codes| <= |s|
  {
    if s == "" then []
    else
      var c := CharLength(s);
      [CodeOf(s[..c])] + Meaning(s[c..])
  }

  function CodeOf(c: string): int
    requires c != "" && CharLength(c) == |c|
  {
    if |c| == 1 then c[0] as int
    else if |c| == 2 then
      match c[1]
      case 'b' => 8
      case 'f' => 12
      case 'n' => 10
      case 'r' => 13
      case 't' => 9
      case other => other as int
    else HexCode(c[2]) * 4096 + HexCode(c[3]) * 256 + HexCode(c[4]) * 16 + HexCode(c[5])
  }

  function HexCode(c: char): int
    requires IsHex(c)
  {
    if IsDigit(c) then c as int - '0' as int
    else if 'a' <= c <= 'f' then c as int - 'a' as int + 10
    else c as int - 'A' as int + 10
  }

  function Codes(s: string): (codes: seq<int>)
    ensures |codes| == |s|
  {
    if s == "" then [] else [s[0] as int] + Codes(s[1..])
  }

  /** A string stands for its own characters exactly if it has no backslash. */
  lemma {:induction false} MeansItself(s: string)
    requires IsBody(s)
    ensures Meaning(s) == Codes(s) <==> '\\' !in s
    decreases |s|
  {
    if s == "" {
    } else {
      var c := CharLength(s);
      if c == 1 {
        MeansItself(s[1..]);
        assert s == [s[0]] + s[1..];
        assert Meaning(s)[1..] == Meaning(s[1..]) && Codes(s)[1..] == Codes(s[1..]);
      } else {
        assert |Meaning(s)| == 1 + |Meaning(s[c..])| < |Codes(s)|;
        assert s[0] == '\\';
      }
    }
  }
}
