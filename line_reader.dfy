/**
 * The part of `java.io.BufferedReader` the request parsers use: `readLine`, and `read(buf, 0, n)`
 * into a buffer that `new char[n]` has filled with '\0'.  The input is the whole stream of chars,
 * all of it available: a read returns as many chars as it asks for while the stream lasts.
 */
module LineReader {
  import opened Outcomes

  /** `readLine` ends a line at '\n', at '\r', or at "\r\n". */
  predicate IsLineEnd(c: char) { c == '\n' || c == '\r' }

  predicate HasNoLineEnd(s: string) {
    forall i | 0 <= i < |s| :: !IsLineEnd(s[i])
  }

  /** The number of chars before the first line terminator, or all of them. */
  function LineLength(s: string): (n: nat)
    ensures n <= |s|
    ensures HasNoLineEnd(s[..n])
    ensures n < |s| ==> IsLineEnd(s[n])
    decreases |s|
  {
    if |s| == 0 || IsLineEnd(s[0]) then 0
    else
      var m := LineLength(s[1..]);
      assert s[..m + 1] == [s[0]] + s[1..][..m];
      m + 1
  }

  /** LineLength is the index of the first terminator. */
  lemma {:induction false} LineLengthIs(s: string, n: nat)
    requires n <= |s| && HasNoLineEnd(s[..n]) && (n < |s| ==> IsLineEnd(s[n]))
    ensures LineLength(s) == n
    decreases n
  {
    if n > 0 {
      assert s[..n][0] == s[0];
      assert s[1..][..n - 1] == s[..n][1..];
      LineLengthIs(s[1..], n - 1);
    }
  }

  /** How many chars the terminator at index n takes: none at the end of the stream, two for "\r\n". */
  function TerminatorLength(s: string, n: nat): nat
    requires n <= |s|
  {
    if n == |s| then 0
    else if s[n] == '\r' && n + 1 < |s| && s[n + 1] == '\n' then 2
    else 1
  }

  /**
   * `readLine()`: None (Java's null) at the end of the stream; otherwise the line, without its
   * terminator, and the input after the terminator.
   */
  function NextLine(s: string): (r: Option<(string, string)>)
    ensures r.None? <==> s == []
    ensures r.Some? ==> HasNoLineEnd(r.value.0) && |r.value.0| + |r.value.1| < |s| + 1
    ensures r.Some? ==> |r.value.1| < |s| && r.value.0 == s[..|r.value.0|] && r.value.1 == s[|s| - |r.value.1|..]
  {
    if s == [] then None
    else
      var n := LineLength(s);
      Some((s[..n], s[n + TerminatorLength(s, n)..]))
  }

  /** The first line of a stream whose line ends in "\r\n" is that line, and the input after it. */
  lemma ReadCrlfLine(line: string, rest: string)
    requires HasNoLineEnd(line)
    ensures NextLine(line + "\r\n" + rest) == Some((line, rest))
  {
    var s := line + "\r\n" + rest;
    assert s[..|line|] == line;
    assert s[|line|] == '\r';
    LineLengthIs(s, |line|);
    assert s[|line| + 2..] == rest;
  }

  /** A last line with no terminator is the whole rest of the stream. */
  lemma ReadFinalLine(line: string)
    requires line != [] && HasNoLineEnd(line)
    ensures NextLine(line) == Some((line, []))
  {
    assert line[..|line|] == line;
    LineLengthIs(line, |line|);
  }

  /** A run of n '\0' chars: what `new char[n]` holds. */
  function Zeros(n: nat): (r: string)
    ensures |r| == n
  {
    seq(n, _ => '\0')
  }

  /**
   * `read(buf, 0, n)` into `buf = new char[n]`: the first min(n, available) chars of the stream,
   * the rest of the buffer left at '\0', and the input after what was read.
   */
  function ReadChars(s: string, n: nat): (r: (string, string))
    ensures |r.0| == n && |r.1| <= |s|
  {
    var k := if n <= |s| then n else |s|;
    (s[..k] + Zeros(n - k), s[k..])
  }

  /** The chars a read leaves in a zero-filled buffer: those read, then the zeros it started with. */
  lemma ReadIntoZeros(buf: string, s: string, n: nat)
    requires |buf| == n
    requires var k := if n <= |s| then n else |s|; buf[..k] == s[..k] && buf[k..] == Zeros(n)[k..]
    ensures buf == ReadChars(s, n).0
  {
    var k := if n <= |s| then n else |s|;
    assert buf == buf[..k] + buf[k..];
    assert Zeros(n)[k..] == Zeros(n - k);
  }

  /** `readLine()` with its result ignored: the input after the next line, or all of it at the end. */
  function SkipLine(s: string): (r: string)
    ensures |r| <= |s|
  {
    match NextLine(s)
    case None => s
    case Some((_, rest)) => rest
  }

  /** Reading exactly the chars that are there takes them and nothing else. */
  lemma ReadCharsOf(a: string, b: string)
    ensures ReadChars(a + b, |a|) == (a, b)
  {
    assert (a + b)[..|a|] == a && (a + b)[|a|..] == b;
    assert a + Zeros(0) == a;
  }

  /** A header section: each line ended by CRLF, then an empty line. */
  function HeaderBlock(lines: seq<string>): string
    decreases |lines|
  {
    if lines == [] then "\r\n" else lines[0] + "\r\n" + HeaderBlock(lines[1..])
  }

  /** The request line and header section of a request as a client sends it. */
  function RequestHead(m: string, target: string, version: string, lines: seq<string>): string {
    m + " " + target + " " + version + "\r\n" + HeaderBlock(lines)
  }

  /** A reader over the chars not yet consumed. */
  class Reader {
    var rest: string

    constructor (input: string)
      ensures rest == input
    {
      rest := input;
    }

    /** `readLine()`, consuming the line and its terminator. */
    method ReadLine() returns (line: Option<string>)
      modifies this
      ensures line.None? ==> rest == old(rest)
      ensures NextLine(old(rest)) == if line.Some? then Some((line.value, rest)) else None
    {
      if rest == [] {
        return None;
      }
      var n := 0;
      while n < |rest| && !IsLineEnd(rest[n])
        invariant 0 <= n <= |rest|
        invariant HasNoLineEnd(rest[..n])
      {
        assert rest[..n + 1] == rest[..n] + [rest[n]];
        n := n + 1;
      }
      LineLengthIs(rest, n);
      var skip := if n == |rest| then 0 else if rest[n] == '\r' && n + 1 < |rest| && rest[n + 1] == '\n' then 2 else 1;
      line := Some(rest[..n]);
      rest := rest[n + skip..];
    }

    /**
     * `read(buf, 0, len)`: copies the next min(len, available) chars into the front of buf and
     * returns how many it copied, or -1 when the stream is over and len > 0.
     */
    method Read(buf: array<char>, len: nat) returns (count: int)
      requires len <= buf.Length
      modifies this, buf
      ensures var k := if len <= |old(rest)| then len else |old(rest)|;
        && buf[..k] == old(rest)[..k]
        && buf[k..] == old(buf[k..])
        && rest == old(rest)[k..]
        && count == if k == 0 && len > 0 then -1 else k
    {
      var k := if len <= |rest| then len else |rest|;
      var i := 0;
      while i < k
        invariant 0 <= i <= k <= |rest| && rest == old(rest)
        invariant buf[..i] == rest[..i]
        invariant forall j | i <= j < buf.Length :: buf[j] == old(buf[j])
      {
        buf[i] := rest[i];
        assert buf[..i + 1] == rest[..i + 1];
        i := i + 1;
      }
      rest := rest[k..];
      count := if k == 0 && len > 0 then -1 else k;
    }
  }
}
