/** The text primitives of the `.ext` reader and writer: words and numbers as `sscanf` takes them,
    hexadecimal addresses, strings ended by a zero (`utils/string_utilities.c`,
    `model/config_file_parser_extensions.c`). */
module Scan {
  import opened Mms

  predicate IsSpace(c: char) {
    c == ' ' || c == '\t' || c == '\n' || c == '\r' || c as int == 11 || c as int == 12
  }

  function SkipSpaces(s: string): (r: string)
    ensures |r| <= |s| && (r != "" ==> !IsSpace(r[0]))
  {
    if s != "" && IsSpace(s[0]) then SkipSpaces(s[1..]) else s
  }

  function WordLength(s: string): (n: nat)
    ensures n <= |s| && (s != "" && !IsSpace(s[0]) ==> n > 0)
  {
    if s == "" || IsSpace(s[0]) then 0 else 1 + WordLength(s[1..])
  }

  /** `%s`: the next word and the rest, or nothing at the end of the text. */
  function ScanWord(s: string): (r: Option<(string, string)>)
    ensures r.Some? ==> |r.value.1| < |s|
  {
    var t := SkipSpaces(s);
    if t == "" then None else Some((t[..WordLength(t)], t[WordLength(t)..]))
  }

  /** `%s` n times: the words found, as many as there are, and the rest. */
  function ScanWords(s: string, n: nat): (r: (seq<string>, string))
    ensures |r.0| <= n
    decreases n
  {
    if n == 0 then ([], s)
    else match ScanWord(s)
      case None => ([], s)
      case Some((word, rest)) =>
        var more := ScanWords(rest, n - 1);
        ([word] + more.0, more.1)
  }

  /** A word: not empty and without spaces. */
  predicate IsWord(w: string) {
    w != "" && forall k :: 0 <= k < |w| ==> !IsSpace(w[k])
  }

  lemma {:induction false} WordLengthIs(w: string, rest: string)
    requires forall k :: 0 <= k < |w| ==> !IsSpace(w[k])
    requires rest != "" ==> IsSpace(rest[0])
    ensures WordLength(w + rest) == |w|
  {
    if w == "" {
      assert w + rest == rest;
    } else {
      assert (w + rest)[1..] == w[1..] + rest;
      WordLengthIs(w[1..], rest);
    }
  }

  lemma ScanWordIs(w: string, rest: string)
    requires IsWord(w) && (rest != "" ==> IsSpace(rest[0]))
    ensures ScanWord(w + rest) == Some((w, rest))
    ensures ScanWord(" " + w + rest) == Some((w, rest))
  {
    WordLengthIs(w, rest);
    var s := " " + w + rest;
    assert (w + rest)[0] == w[0];
    assert s[1..] == w + rest;
    assert SkipSpaces(s) == SkipSpaces(w + rest) == w + rest;
    assert (w + rest)[..|w|] == w && (w + rest)[|w|..] == rest;
  }

  /** Words separated by one space each. */
  function Joined(words: seq<string>): string {
    if words == [] then "" else if |words| == 1 then words[0] else words[0] + " " + Joined(words[1..])
  }

  lemma ScanWordsCons(s: string, n: nat, w: string, rest: string)
    requires n > 0 && ScanWord(s) == Some((w, rest))
    ensures ScanWords(s, n) == ([w] + ScanWords(rest, n - 1).0, ScanWords(rest, n - 1).1)
  {
  }

  predicate AllWords(words: seq<string>) {
    forall k :: 0 <= k < |words| ==> IsWord(words[k])
  }

  /** What follows the first of some joined words. */
  function AfterFirst(words: seq<string>, rest: string): string
    requires words != []
  {
    if |words| == 1 then rest else " " + Joined(words[1..]) + rest
  }

  lemma JoinedFirst(words: seq<string>, rest: string)
    requires words != []
    ensures Joined(words) + rest == words[0] + AfterFirst(words, rest)
    ensures " " + Joined(words) + rest == " " + words[0] + AfterFirst(words, rest)
  {
    if |words| > 1 {
      var more := Joined(words[1..]);
      assert words[0] + " " + more + rest == words[0] + (" " + more + rest);
    }
  }

  lemma ScanFirst(s: string, words: seq<string>, rest: string)
    requires words != [] && IsWord(words[0]) && (rest != "" ==> IsSpace(rest[0]))
    requires s == Joined(words) + rest || s == " " + Joined(words) + rest
    ensures ScanWord(s) == Some((words[0], AfterFirst(words, rest)))
  {
    JoinedFirst(words, rest);
    ScanWordIs(words[0], AfterFirst(words, rest));
  }

  /** Printing words and scanning them gives them back, with or without a space before, and leaves
      what follows them. */
  lemma {:induction false} ScanJoined(s: string, words: seq<string>, rest: string)
    requires words != [] && AllWords(words) && (rest != "" ==> IsSpace(rest[0]))
    requires s == Joined(words) + rest || s == " " + Joined(words) + rest
    ensures ScanWords(s, |words|) == (words, rest)
    decreases |words|
  {
    var after := AfterFirst(words, rest);
    ScanFirst(s, words, rest);
    ScanWordsCons(s, |words|, words[0], after);
    if |words| == 1 {
      assert ScanWords(after, 0) == ([], rest);
      assert [words[0]] + [] == words;
    } else {
      ScanJoined(after, words[1..], rest);
      assert [words[0]] + words[1..] == words;
    }
  }

  // ---- Decimal numbers ----

  predicate IsDigit(c: char) {
    '0' <= c <= '9'
  }

  function DigitValue(c: char): nat
    requires IsDigit(c)
  {
    c as int - '0' as int
  }

  function DigitsLength(s: string): (n: nat)
    ensures n <= |s| && forall k :: 0 <= k < n ==> IsDigit(s[k])
  {
    if s == "" || !IsDigit(s[0]) then 0 else 1 + DigitsLength(s[1..])
  }

  function DecimalValue(s: string): nat
    requires forall k :: 0 <= k < |s| ==> IsDigit(s[k])
  {
    if s == "" then 0 else 10 * DecimalValue(s[..|s| - 1]) + DigitValue(s[|s| - 1])
  }

  /** `%u`: an optional sign and digits; the number read, negative after a minus sign, and the rest. */
  function ScanUnsigned(s: string): Option<(int, string)> {
    var t := SkipSpaces(s);
    var signed := t != "" && (t[0] == '-' || t[0] == '+');
    var d := if signed then t[1..] else t;
    var n := DigitsLength(d);
    if n == 0 then None
    else
      var value: int := DecimalValue(d[..n]);
      Some((if signed && t[0] == '-' then -value else value, d[n..]))
  }

  /** An integer as Java turns it into text. */
  function Decimal(n: nat): (s: string)
    ensures s != "" && forall k :: 0 <= k < |s| ==> IsDigit(s[k])
    ensures DecimalValue(s) == n
  {
    var digit := ('0' as int + n % 10) as char;
    if n < 10 then [digit] else Decimal(n / 10) + [digit]
  }

  lemma {:induction false} DigitsLengthIs(d: string, rest: string)
    requires forall k :: 0 <= k < |d| ==> IsDigit(d[k])
    requires rest != "" ==> !IsDigit(rest[0])
    ensures DigitsLength(d + rest) == |d|
  {
    if d == "" {
      assert d + rest == rest;
    } else {
      assert (d + rest)[1..] == d[1..] + rest;
      DigitsLengthIs(d[1..], rest);
    }
  }

  lemma SkipOneSpace(t: string)
    requires t != "" && !IsSpace(t[0])
    ensures SkipSpaces(" " + t) == t
  {
    assert (" " + t)[1..] == t;
  }

  lemma ScanDigits(t: string, n: nat)
    requires 0 < n == DigitsLength(t)
    ensures ScanUnsigned(t) == Some((DecimalValue(t[..n]), t[n..]))
  {
    assert IsDigit(t[0]) && SkipSpaces(t) == t;
  }

  lemma ScanAfterSpace(t: string)
    requires t != "" && !IsSpace(t[0])
    ensures ScanUnsigned(" " + t) == ScanUnsigned(t)
  {
    SkipOneSpace(t);
    assert SkipSpaces(t) == t;
  }

  /** A printed number is scanned back, whatever follows it if that is no digit. */
  lemma ScanDecimal(n: nat, rest: string)
    requires rest != "" ==> !IsDigit(rest[0])
    ensures ScanUnsigned(" " + Decimal(n) + rest) == Some((n, rest))
  {
    var d := Decimal(n);
    var t := d + rest;
    assert " " + d + rest == " " + t;
    assert t[0] == d[0] && t[..|d|] == d && t[|d|..] == rest;
    DigitsLengthIs(d, rest);
    ScanAfterSpace(t);
    ScanDigits(t, |d|);
  }

  // ---- Hexadecimal addresses ----

  /** toInt: the value of a hexadecimal digit, or -1. */
  function ToInt(c: char): (r: int)
    ensures -1 <= r < 16
  {
    if '0' <= c <= '9' then c as int - '0' as int
    else if 'A' <= c <= 'F' then 10 + c as int - 'A' as int
    else if 'a' <= c <= 'f' then 10 + c as int - 'a' as int
    else -1
  }

  /** The byte of two digits, if both are digits. */
  function PairValue(a: char, b: char): Option<nat> {
    if ToInt(a) == -1 || ToInt(b) == -1 then None else Some(ToInt(a) * 16 + ToInt(b))
  }

  /** The bytes of a text of pairs of digits. */
  function FromHex(s: string): (r: Option<seq<nat>>)
    ensures r.Some? ==> 2 * |r.value| == |s|
  {
    if s == "" then Some([])
    else if |s| == 1 then None
    else
      var bytes, last := FromHex(s[..|s| - 2]), PairValue(s[|s| - 2], s[|s| - 1]);
      if bytes == None || last == None then None else Some(bytes.value + [last.value])
  }

  lemma {:induction false} FromHexFail(s: string, n: nat)
    requires n <= |s| && n % 2 == |s| % 2 && FromHex(s[..n]) == None
    ensures FromHex(s) == None
    decreases |s|
  {
    if n < |s| {
      assert s[..|s| - 2][..n] == s[..n];
      FromHexFail(s[..|s| - 2], n);
    } else {
      assert s[..n] == s;
    }
  }

  lemma FromHexMore(s: string, n: nat)
    requires n + 2 <= |s|
    ensures FromHex(s[..n + 2]) ==
            var bytes, last := FromHex(s[..n]), PairValue(s[n], s[n + 1]);
            if bytes == None || last == None then None else Some(bytes.value + [last.value])
  {
    assert s[..n + 2][..n] == s[..n];
  }

  lemma {:induction false} FromHexOdd(s: string)
    requires |s| % 2 == 1
    ensures FromHex(s) == None
  {
    if |s| <= 1 {
    } else {
      FromHexOdd(s[..|s| - 2]);
    }
  }

  /** The body of its loop: two digits become byte i, or one of them is none. */
  method ConvertPair(hexString: string, buffer: array<nat>, i: nat) returns (failed: bool)
    requires i * 2 + 1 < |hexString| && |hexString| % 2 == 0 && i < buffer.Length
    requires FromHex(hexString[..i * 2]) == Some(buffer[..i])
    modifies buffer
    ensures failed ==> FromHex(hexString) == None
    ensures !failed ==> FromHex(hexString[..(i + 1) * 2]) == Some(buffer[..i + 1])
  {
    FromHexMore(hexString, i * 2);
    var high := ToInt(hexString[i * 2]);
    if high == -1 {
      FromHexFail(hexString, i * 2 + 2);
      return true;
    }
    var low := ToInt(hexString[i * 2 + 1]);
    if low == -1 {
      FromHexFail(hexString, i * 2 + 2);
      return true;
    }
    ghost var before := buffer[..i];
    buffer[i] := high * 16 + low;
    assert buffer[..i + 1] == before + [high * 16 + low];
    return false;
  }

  /** StringUtils_createBufferFromHexString; it does not check the size of the buffer. */
  method CreateBufferFromHexString(hexString: string, buffer: array<nat>) returns (bytesCount: int)
    requires |hexString| % 2 == 0 ==> |hexString| / 2 <= buffer.Length
    modifies buffer
    ensures bytesCount == -1 <==> FromHex(hexString) == None
    ensures FromHex(hexString).Some? ==>
      bytesCount == |FromHex(hexString).value| <= buffer.Length && buffer[..bytesCount] == FromHex(hexString).value
  {
    bytesCount := 0;
    if |hexString| % 2 != 0 {
      FromHexOdd(hexString);
      return -1;
    }
    var i := 0;
    while i < |hexString| / 2
      invariant i <= |hexString| / 2 && bytesCount == i
      invariant FromHex(hexString[..i * 2]) == Some(buffer[..i])
    {
      var failed := ConvertPair(hexString, buffer, i);
      if failed {
        return -1;
      }
      bytesCount := bytesCount + 1;
      i := i + 1;
    }
    assert hexString[..i * 2] == hexString;
  }

  function HexDigit(d: nat): (c: char)
    requires d < 16
    ensures ToInt(c) == d && !IsSpace(c) && c != '\0' && c == "0123456789abcdef"[d]
  {
    if d < 10 then ('0' as int + d) as char else ('a' as int + d - 10) as char
  }

  /** A byte as `%02x` prints it. */
  function Hex2(byte: nat): (s: string)
    requires byte < 256
    ensures |s| == 2 && !IsSpace(s[0]) && !IsSpace(s[1]) && s[0] != '\0' && s[1] != '\0'
    ensures byte == 16 * ToInt(s[0]) + ToInt(s[1])
  {
    [HexDigit(byte / 16), HexDigit(byte % 16)]
  }

  function HexText(bytes: seq<nat>): (s: string)
    requires forall k :: 0 <= k < |bytes| ==> bytes[k] < 256
    ensures |s| == 2 * |bytes|
    ensures forall k :: 0 <= k < |s| ==> !IsSpace(s[k]) && s[k] != '\0'
  {
    if bytes == [] then "" else HexText(bytes[..|bytes| - 1]) + Hex2(bytes[|bytes| - 1])
  }

  lemma Hex2Value(byte: nat)
    requires byte < 256
    ensures PairValue(Hex2(byte)[0], Hex2(byte)[1]) == Some(byte)
  {
  }

  /** One more pair of digits. */
  lemma FromHexSnoc(s: string, bytes: seq<nat>, byte: nat)
    requires byte < 256 && FromHex(s) == Some(bytes)
    ensures FromHex(s + Hex2(byte)) == Some(bytes + [byte])
  {
    var t := s + Hex2(byte);
    Hex2Value(byte);
    assert t[..|t| - 2] == s && t[|t| - 2] == Hex2(byte)[0] && t[|t| - 1] == Hex2(byte)[1];
  }

  lemma HexTextSnoc(bytes: seq<nat>, byte: nat)
    requires byte < 256 && forall k :: 0 <= k < |bytes| ==> bytes[k] < 256
    ensures HexText(bytes + [byte]) == HexText(bytes) + Hex2(byte)
  {
    assert (bytes + [byte])[..|bytes|] == bytes;
  }

  /** Printing an address and reading it gives the same bytes. */
  lemma {:induction false} HexRoundTrip(bytes: seq<nat>)
    requires forall k :: 0 <= k < |bytes| ==> bytes[k] < 256
    ensures FromHex(HexText(bytes)) == Some(bytes)
    decreases |bytes|
  {
    if bytes == [] {
    } else {
      var init, last := bytes[..|bytes| - 1], bytes[|bytes| - 1];
      assert bytes == init + [last];
      HexRoundTrip(init);
      HexTextSnoc(init, last);
      FromHexSnoc(HexText(init), init, last);
    }
  }

  // ---- Strings ended by a zero ----

  /** A string up to the first `ch`. */
  function Cut(s: string, ch: char): (r: string)
    ensures |r| <= |s| && r <= s && ch !in r
    ensures |r| < |s| ==> s[|r|] == ch
  {
    if s == "" || s[0] == ch then "" else [s[0]] + Cut(s[1..], ch)
  }

  lemma {:induction false} CutIs(s: string, ch: char, n: nat)
    requires n <= |s| && ch !in s[..n] && (n < |s| ==> s[n] == ch)
    ensures Cut(s, ch) == s[..n]
  {
    if n == 0 {
    } else {
      assert s[..n][0] == s[0];
      assert s[1..][..n - 1] == s[..n][1..];
      CutIs(s[1..], ch, n - 1);
    }
  }

  /** What a zero at the first `ch` of a string, or nowhere if there is none, makes of the buffer. */
  lemma TerminatedAt(was: string, index: nat, ch: char)
    requires index < |Cut(was, '\0')| && Cut(was, '\0')[index] == ch && ch !in Cut(was, '\0')[..index]
    ensures Cut(was[index := '\0'], '\0') == Cut(Cut(was, '\0'), ch)
  {
    var text, now := Cut(was, '\0'), was[index := '\0'];
    CutIs(text, ch, index);
    assert now[..index] == text[..index];
    CutIs(now, '\0', index);
  }

  /** terminateString, in place: the string in the buffer ends at its first `ch`. */
  method TerminateString(buffer: array<char>, ch: char)
    requires '\0' in buffer[..]
    modifies buffer
    ensures Cut(buffer[..], '\0') == Cut(Cut(old(buffer[..]), '\0'), ch)
    ensures '\0' in buffer[..]
  {
    ghost var was := buffer[..];
    ghost var text := Cut(was, '\0');
    assert |text| < |was|;
    var index := 0;
    while buffer[index] != '\0'
      invariant index <= |text| && buffer[..] == was && ch !in text[..index]
      decreases |text| - index
    {
      if buffer[index] == ch {
        TerminatedAt(was, index, ch);
        buffer[index] := '\0';
        assert buffer[..] == was[index := '\0'] && buffer[..][index] == '\0';
        return;
      }
      assert text[..index + 1] == text[..index] + [text[index]];
      index := index + 1;
    }
    assert index == |text| && text[..index] == text;
    CutIs(text, ch, index);
  }

  /** StringUtils_startsWith. */
  method StartsWith(s: string, prefix: string) returns (r: bool)
    ensures r <==> prefix <= s
  {
    var index := 0;
    while index < |s| && index < |prefix|
      invariant index <= |s| && index <= |prefix| && forall k :: 0 <= k < index ==> s[k] == prefix[k]
    {
      if s[index] != prefix[index] {
        return false;
      }
      index := index + 1;
    }
    return index == |prefix|;
  }
}
