/** Reading an `.ext` file line by line into a fixed buffer
    (`model/config_file_parser_extensions.c`, readLine). */
module Lines {

  const READ_BUFFER_MAX_SIZE: nat := 1024

  predicate IsEol(c: char) {
    c == '\n' || c == '\r'
  }

  /** The rest of a text after leading line ends. */
  function SkipEols(text: string): (r: string)
    ensures |r| <= |text| && (r != "" ==> !IsEol(r[0]))
  {
    if text != "" && IsEol(text[0]) then SkipEols(text[1..]) else text
  }

  /** How far a line reaches, at most `max` characters. */
  function LineLength(text: string, max: nat): (n: nat)
    ensures n <= |text| && n <= max
  {
    if text == "" || max == 0 || IsEol(text[0]) then 0 else 1 + LineLength(text[1..], max - 1)
  }

  /** The next line of a text and what is left to read after it; the line end is consumed unless the
      buffer is full first. */
  function NextLine(text: string, max: nat): (r: (string, string))
    ensures r.0 != "" ==> |r.1| < |text|
    ensures |r.0| <= max
  {
    var t := SkipEols(text);
    var n := LineLength(t, max);
    (t[..n], if n < |t| && n < max then t[n + 1..] else t[n..])
  }

  lemma {:induction false} SkipEolsDrop(text: string, k: nat)
    requires k <= |text| && forall i :: 0 <= i < k ==> IsEol(text[i])
    ensures SkipEols(text) == SkipEols(text[k..])
  {
    if k == 0 {
    } else {
      SkipEolsDrop(text[1..], k - 1);
      assert text[1..][k - 1..] == text[k..];
    }
  }

  lemma {:induction false} LineLengthIs(text: string, max: nat, n: nat)
    requires n <= |text| && n <= max && forall k :: 0 <= k < n ==> !IsEol(text[k])
    requires n == |text| || n == max || IsEol(text[n])
    ensures LineLength(text, max) == n
  {
    if n == 0 {
    } else {
      LineLengthIs(text[1..], max - 1, n - 1);
    }
  }

  lemma LineLengthStep(text: string, max: nat)
    requires text != "" && max > 0 && !IsEol(text[0])
    ensures LineLength(text, max) == 1 + LineLength(text[1..], max - 1)
  {
  }

  /** An open file: what is left to read of it. */
  class FileHandle {
    var unread: string

    constructor (contents: string)
      ensures unread == contents
    {
      unread := contents;
    }

    /** FileSystem_readFile for one byte; the count read and, if 1, the byte. */
    method ReadByte() returns (result: nat, byte: char)
      modifies this
      ensures old(unread) == "" ==> result == 0 && unread == ""
      ensures old(unread) != "" ==> result == 1 && byte == old(unread)[0] && unread == old(unread)[1..]
    {
      if unread == "" {
        return 0, '\0';
      }
      byte := unread[0];
      unread := unread[1..];
      return 1, byte;
    }
  }

  /** The first loop of readLine: leading line ends are eaten, the first character of the line is stored. */
  method SkipLineEnds(file: FileHandle, buffer: array<char>) returns (fileReadResult: nat, bytesRead: nat)
    requires 0 < buffer.Length
    modifies file, buffer
    ensures var t := SkipEols(old(file.unread));
            if t == "" then fileReadResult == 0 && bytesRead == 0 && file.unread == ""
            else fileReadResult == 1 && bytesRead == 1 && buffer[0] == t[0] && file.unread == t[1..]
  {
    ghost var t := SkipEols(file.unread);
    bytesRead, fileReadResult := 0, 1;
    while fileReadResult > 0
      invariant SkipEols(file.unread) == t && bytesRead == 0 && fileReadResult <= 1
      invariant fileReadResult == 0 ==> file.unread == ""
      decreases |file.unread|, fileReadResult
    {
      var byte;
      fileReadResult, byte := file.ReadByte();
      if fileReadResult == 1 {
        buffer[0] := byte;
        if !IsEol(buffer[0]) {
          bytesRead := 1;
          break;
        }
      }
    }
  }

  /** readLine: the line is left in the buffer and its length returned, 0 at the end of the file. */
  method ReadLine(file: FileHandle, buffer: array<char>, maxSize: nat) returns (bytesRead: nat)
    requires 0 < maxSize <= buffer.Length
    modifies file, buffer
    ensures bytesRead <= maxSize
    ensures (buffer[..bytesRead], file.unread) == NextLine(old(file.unread), maxSize)
  {
    ghost var t := SkipEols(file.unread);
    var fileReadResult;
    fileReadResult, bytesRead := SkipLineEnds(file, buffer);
    if fileReadResult > 0 {
      LineLengthStep(t, maxSize);
      while fileReadResult > 0
        invariant 1 <= bytesRead <= maxSize && fileReadResult <= 1
        invariant t == buffer[..bytesRead] + file.unread
        invariant LineLength(t, maxSize) == bytesRead + LineLength(file.unread, maxSize - bytesRead)
        invariant fileReadResult == 0 ==> file.unread == ""
        decreases |file.unread|, fileReadResult
      {
        if bytesRead == maxSize {
          break;
        }
        ghost var line := buffer[..bytesRead];
        var byte;
        fileReadResult, byte := file.ReadByte();
        if fileReadResult == 1 {
          buffer[bytesRead] := byte;
          assert buffer[..bytesRead] == line;
          assert buffer[..bytesRead + 1] == line + [byte];
          if IsEol(buffer[bytesRead]) {
            assert t == line + [byte] + file.unread;
            return;
          }
          bytesRead := bytesRead + 1;
        }
      }
    }
  }

  // ---- Lines as they are printed ----

  datatype Line = Line(text: string, eol: string)

  /** A line that is read back as one line: it has characters, none of them a line end, and fits. */
  predicate Readable(l: Line) {
    && 0 < |l.text| < READ_BUFFER_MAX_SIZE
    && (forall k :: 0 <= k < |l.text| ==> !IsEol(l.text[k]))
    && (l.eol == "\n" || l.eol == "\r\n")
  }

  function Text(lines: seq<Line>): string {
    if lines == [] then "" else lines[0].text + lines[0].eol + Text(lines[1..])
  }

  lemma {:induction false} TextAppend(a: seq<Line>, b: seq<Line>)
    ensures Text(a + b) == Text(a) + Text(b)
    decreases |a|
  {
    if a == [] {
      assert a + b == b;
    } else {
      assert (a + b)[1..] == a[1..] + b;
      TextAppend(a[1..], b);
    }
  }

  /** A readable line comes back as it was, followed by nothing but the rest of its line end. */
  lemma ReadBack(l: Line, rest: string)
    requires Readable(l)
    ensures NextLine(l.text + l.eol + rest, READ_BUFFER_MAX_SIZE) == (l.text, l.eol[1..] + rest)
  {
    var text := l.text + l.eol + rest;
    assert text[0] == l.text[0];
    assert forall k :: 0 <= k < |l.text| ==> text[k] == l.text[k];
    assert text[|l.text|] == l.eol[0];
    LineLengthIs(text, READ_BUFFER_MAX_SIZE, |l.text|);
    assert text[..|l.text|] == l.text;
    assert text[|l.text| + 1..] == l.eol[1..] + rest;
  }

  /** A line that is too long fills the buffer. */
  lemma LongLine(l: Line, rest: string)
    requires |l.text| >= READ_BUFFER_MAX_SIZE && forall k :: 0 <= k < |l.text| ==> !IsEol(l.text[k])
    ensures |NextLine(l.text + l.eol + rest, READ_BUFFER_MAX_SIZE).0| == READ_BUFFER_MAX_SIZE
  {
    var text := l.text + l.eol + rest;
    assert forall k :: 0 <= k < |l.text| ==> text[k] == l.text[k];
    LineLengthIs(text, READ_BUFFER_MAX_SIZE, READ_BUFFER_MAX_SIZE);
  }

  lemma LeftOver(l: Line, rest: string)
    requires Readable(l)
    ensures NextLine(l.eol[1..] + rest, READ_BUFFER_MAX_SIZE) == NextLine(rest, READ_BUFFER_MAX_SIZE)
  {
    var text := l.eol[1..] + rest;
    SkipEolsDrop(text, |l.eol| - 1);
    assert text[|l.eol| - 1..] == rest;
  }
}
