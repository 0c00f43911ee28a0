/**
 * `Util`: the query-string decoder and `charArrayToBytes`, which are the same in both snapshots of
 * the server, and the later snapshot's `writeToByteStreamAndLog`.
 */
module Util {
  import opened Outcomes
  import opened JavaText
  import opened Bytes
  import opened Streams

  const Ampersand: Delimiter := Literal("&")
  const EqualsSign: Delimiter := Literal("=")

  /** What the decoding loop does with one `&`-separated segment. */
  datatype PairAction = Skip | Put(key: string, value: string) | Throw(error: Failure)

  /**
   * One segment: an empty one is skipped; one whose `=`-split has more than two parts, or one part
   * and no trailing '=', is a bad request; two parts are a key and a value; one part with a
   * trailing '=' is a key with an empty value; and a segment made only of '=' splits into no parts,
   * so reading the key indexes an empty array.
   */
  function Segment(pair: string): PairAction {
    if |pair| == 0 then Skip
    else
      var keyValue := Split(pair, EqualsSign);
      if |keyValue| > 2 || (|keyValue| == 1 && pair[|pair| - 1] != '=') then Throw(BadRequest)
      else if |keyValue| == 2 then Put(keyValue[0], keyValue[1])
      else if |keyValue| == 0 then Throw(IndexOutOfBounds)
      else Put(keyValue[0], "")
  }

  /** The map the loop builds from params over the segments, or the first failure. */
  function ParamsFrom(params: map<string, string>, pairs: seq<string>): Result<map<string, string>>
    decreases |pairs|
  {
    if pairs == [] then Ok(params)
    else
      match Segment(pairs[0])
      case Skip => ParamsFrom(params, pairs[1..])
      case Put(k, v) => ParamsFrom(params[k := v], pairs[1..])
      case Throw(e) => Err(e)
  }

  /** What `parseQueryString(queryString)` returns or throws. */
  function QueryParams(queryString: string): Result<map<string, string>> {
    ParamsFrom(map[], Split(queryString, Ampersand))
  }

  /** `Util.parseQueryString`. */
  method ParseQueryString(queryString: string) returns (r: Result<map<string, string>>)
    ensures r == QueryParams(queryString)
  {
    var params: map<string, string> := map[];
    var pairs := Split(queryString, Ampersand);
    ghost var result := QueryParams(queryString);
    assert pairs[0..] == pairs;
    var i := 0;
    while i < |pairs|
      invariant 0 <= i <= |pairs|
      invariant result == ParamsFrom(params, pairs[i..])
    {
      var pair := pairs[i];
      ParamsStep(params, pairs, i);
      if |pair| == 0 {
        i := i + 1;
        continue;
      }
      var keyValue := Split(pair, EqualsSign);
      SegmentCases(pair, keyValue);
      if |keyValue| > 2 || (|keyValue| == 1 && pair[|pair| - 1] != '=') {
        return Err(BadRequest);
      }
      if |keyValue| == 2 {
        params := params[keyValue[0] := keyValue[1]];
      } else if |keyValue| == 0 {
        return Err(IndexOutOfBounds);
      } else {
        params := params[keyValue[0] := ""];
      }
      i := i + 1;
    }
    return Ok(params);
  }

  /** One turn of the decoding loop: what `ParamsFrom` makes of the segments from the i-th on. */
  lemma ParamsStep(params: map<string, string>, pairs: seq<string>, i: nat)
    requires i < |pairs|
    ensures ParamsFrom(params, pairs[i..]) ==
      match Segment(pairs[i])
      case Skip => ParamsFrom(params, pairs[i + 1..])
      case Put(k, v) => ParamsFrom(params[k := v], pairs[i + 1..])
      case Throw(e) => Err(e)
  {
    assert pairs[i..][0] == pairs[i] && pairs[i..][1..] == pairs[i + 1..];
  }

  /** The branches of the decoding loop for a non-empty segment, in the order the loop tests them. */
  lemma SegmentCases(pair: string, keyValue: seq<string>)
    requires |pair| > 0 && keyValue == Split(pair, EqualsSign)
    ensures |keyValue| > 2 || (|keyValue| == 1 && pair[|pair| - 1] != '=') ==> Segment(pair) == Throw(BadRequest)
    ensures |keyValue| == 2 ==> Segment(pair) == Put(keyValue[0], keyValue[1])
    ensures |keyValue| == 0 ==> Segment(pair) == Throw(IndexOutOfBounds)
    ensures |keyValue| == 1 && pair[|pair| - 1] == '=' ==> Segment(pair) == Put(keyValue[0], "")
  {
  }

  /** `Util.charArrayToBytes`: a new array of the same length holding the low byte of each char. */
  method CharArrayToBytes(chars: array<char>) returns (bytes: array<byte>)
    ensures fresh(bytes)
    ensures bytes.Length == chars.Length && bytes[..] == CharsToBytes(chars[..])
  {
    bytes := new byte[chars.Length];
    var i := 0;
    while i < chars.Length
      invariant 0 <= i <= chars.Length
      invariant forall j | 0 <= j < i :: bytes[j] == LowByte(chars[j])
    {
      bytes[i] := LowByte(chars[i]);
      i := i + 1;
    }
  }

  // ---------------------------------------------------------------------------------------------
  // Writing to the client and to the log (later snapshot).

  /** One step of a response: a string written and logged, or bytes written and not logged. */
  datatype Write = Logged(text: string) | Raw(bytes: seq<byte>)

  /**
   * The bytes one write puts on the wire.  `getBytes(UTF_8)` is taken one byte per char, which is
   * its value on ASCII text (`Bytes.EncodeAscii`).
   */
  function WriteBytes(w: Write): seq<byte> {
    match w
    case Logged(s) => CharsToBytes(s)
    case Raw(bs) => bs
  }

  /** What one write adds to the log: a logged string behind "< ". */
  function WriteLog(w: Write): string {
    match w
    case Logged(s) => "< " + s
    case Raw(_) => []
  }

  /** The bytes a sequence of writes puts on the wire. */
  function Wire(ws: seq<Write>): seq<byte>
    decreases |ws|
  {
    if ws == [] then [] else WriteBytes(ws[0]) + Wire(ws[1..])
  }

  /** The text a sequence of writes adds to the log. */
  function LogOf(ws: seq<Write>): string
    decreases |ws|
  {
    if ws == [] then [] else WriteLog(ws[0]) + LogOf(ws[1..])
  }

  lemma WireAppend(a: seq<Write>, b: seq<Write>)
    ensures Wire(a + b) == Wire(a) + Wire(b)
    ensures LogOf(a + b) == LogOf(a) + LogOf(b)
  {
    WireOfAppend(a, b);
    LogOfAppend(a, b);
  }

  lemma {:induction false} WireOfAppend(a: seq<Write>, b: seq<Write>)
    ensures Wire(a + b) == Wire(a) + Wire(b)
    decreases |a|
  {
    if a == [] {
      assert a + b == b;
    } else {
      var ab := a + b;
      assert ab[0] == a[0] && ab[1..] == a[1..] + b;
      WireOfAppend(a[1..], b);
      assert Wire(ab) == WriteBytes(a[0]) + (Wire(a[1..]) + Wire(b));
    }
  }

  lemma {:induction false} LogOfAppend(a: seq<Write>, b: seq<Write>)
    ensures LogOf(a + b) == LogOf(a) + LogOf(b)
    decreases |a|
  {
    if a == [] {
      assert a + b == b;
    } else {
      var ab := a + b;
      assert ab[0] == a[0] && ab[1..] == a[1..] + b;
      LogOfAppend(a[1..], b);
      assert LogOf(ab) == WriteLog(a[0]) + (LogOf(a[1..]) + LogOf(b));
    }
  }

  /** Three writes, then more, put their bytes on the wire one after the other. */
  lemma WireThreeThen(w0: Write, w1: Write, w2: Write, rest: seq<Write>)
    ensures Wire([w0, w1, w2] + rest) == WriteBytes(w0) + WriteBytes(w1) + WriteBytes(w2) + Wire(rest)
  {
    var b0, b1, b2, r := WriteBytes(w0), WriteBytes(w1), WriteBytes(w2), Wire(rest);
    var s2 := [w2] + rest;
    var s1 := [w1] + s2;
    var s0 := [w0] + s1;
    assert s0 == [w0, w1, w2] + rest;
    assert s2[0] == w2 && s2[1..] == rest;
    assert Wire(s2) == b2 + r;
    assert s1[0] == w1 && s1[1..] == s2;
    assert Wire(s1) == b1 + (b2 + r);
    assert s0[0] == w0 && s0[1..] == s1;
    assert Wire(s0) == b0 + (b1 + (b2 + r));
  }

  /** Four writes put their bytes on the wire one after the other. */
  lemma WireFour(w0: Write, w1: Write, w2: Write, w3: Write)
    ensures Wire([w0, w1, w2, w3]) ==
      WriteBytes(w0) + WriteBytes(w1) + WriteBytes(w2) + WriteBytes(w3)
  {
    WireThreeThen(w0, w1, w2, [w3]);
    assert [w0, w1, w2] + [w3] == [w0, w1, w2, w3];
    assert [w3][1..] == [];
    assert Wire([w3]) == WriteBytes(w3) + [] == WriteBytes(w3);
  }

  /** Five writes put their bytes on the wire one after the other. */
  lemma WireFive(w0: Write, w1: Write, w2: Write, w3: Write, w4: Write)
    ensures Wire([w0, w1, w2, w3, w4]) ==
      WriteBytes(w0) + WriteBytes(w1) + WriteBytes(w2) + WriteBytes(w3) + WriteBytes(w4)
  {
    var b3, b4 := WriteBytes(w3), WriteBytes(w4);
    WireThreeThen(w0, w1, w2, [w3, w4]);
    assert [w0, w1, w2] + [w3, w4] == [w0, w1, w2, w3, w4];
    assert [w4][1..] == [];
    assert Wire([w4]) == b4 + [] == b4;
    assert [w3, w4][1..] == [w4];
    assert Wire([w3, w4]) == b3 + b4;
  }

  /** `Util.writeToByteStreamAndLog`: the bytes of s to the stream, "< " and s to the log. */
  method WriteToByteStreamAndLog(log: StringBuilder, out: OutputStream, s: string)
    modifies log, out
    ensures out.written == old(out.written) + CharsToBytes(s)
    ensures log.content == old(log.content) + ("< " + s)
  {
    out.Write(CharsToBytes(s));
    log.Append("< ");
    log.Append(s);
  }

  // ---------------------------------------------------------------------------------------------
  // Properties of the decoder.

  /** `ParamsFrom` over two runs of segments is the second run started from the first's map. */
  lemma {:induction false} ParamsAppend(params: map<string, string>, a: seq<string>, b: seq<string>)
    ensures ParamsFrom(params, a + b) ==
      match ParamsFrom(params, a)
      case Ok(m) => ParamsFrom(m, b)
      case Err(e) => Err(e)
    decreases |a|
  {
    if a == [] {
      assert a + b == b;
    } else {
      assert (a + b)[0] == a[0] && (a + b)[1..] == a[1..] + b;
      match Segment(a[0])
      case Skip => ParamsAppend(params, a[1..], b);
      case Put(k, v) => ParamsAppend(params[k := v], a[1..], b);
      case Throw(e) =>
    }
  }

  /** Empty segments (from "&&", or a leading or trailing '&') change nothing. */
  lemma EmptySegmentIgnored(params: map<string, string>, a: seq<string>, b: seq<string>)
    ensures ParamsFrom(params, a + [[]] + b) == ParamsFrom(params, a + b)
  {
    ParamsAppend(params, a, [[]] + b);
    ParamsAppend(params, a, b);
    assert ([[]] + b)[0] == [] && ([[]] + b)[1..] == b;
    assert a + [[]] + b == a + ([[]] + b);
  }

  /**
   * The last occurrence of a key wins: when decoding succeeds, a key holds the value of the last
   * segment that put it.
   */
  lemma {:induction false} LastOccurrenceWins(params: map<string, string>, pairs: seq<string>, i: nat, k: string, v: string)
    requires i < |pairs| && Segment(pairs[i]) == Put(k, v)
    requires forall j | i < j < |pairs| :: !(Segment(pairs[j]).Put? && Segment(pairs[j]).key == k)
    requires ParamsFrom(params, pairs).Ok?
    ensures k in ParamsFrom(params, pairs).value && ParamsFrom(params, pairs).value[k] == v
    decreases |pairs|
  {
    var rest := pairs[1..];
    if i == 0 {
      assert forall j | 0 <= j < |rest| :: rest[j] == pairs[j + 1];
      assert ParamsFrom(params, pairs) == ParamsFrom(params[k := v], rest);
      PutKeepsKey(params[k := v], rest, k, v);
    } else {
      assert rest[i - 1] == pairs[i];
      forall j | i - 1 < j < |rest| ensures !(Segment(rest[j]).Put? && Segment(rest[j]).key == k) {
        assert rest[j] == pairs[j + 1];
      }
      match Segment(pairs[0])
      case Skip =>
        assert ParamsFrom(params, pairs) == ParamsFrom(params, rest);
        LastOccurrenceWins(params, rest, i - 1, k, v);
      case Put(k0, v0) =>
        assert ParamsFrom(params, pairs) == ParamsFrom(params[k0 := v0], rest);
        LastOccurrenceWins(params[k0 := v0], rest, i - 1, k, v);
    }
  }

  /** A key that no later segment puts keeps its value to the end. */
  lemma {:induction false} PutKeepsKey(params: map<string, string>, pairs: seq<string>, k: string, v: string)
    requires k in params && params[k] == v
    requires forall j | 0 <= j < |pairs| :: !(Segment(pairs[j]).Put? && Segment(pairs[j]).key == k)
    requires ParamsFrom(params, pairs).Ok?
    ensures k in ParamsFrom(params, pairs).value && ParamsFrom(params, pairs).value[k] == v
    decreases |pairs|
  {
    if pairs != [] {
      assert forall j | 0 <= j < |pairs[1..]| :: pairs[1..][j] == pairs[j + 1];
      match Segment(pairs[0])
      case Skip => PutKeepsKey(params, pairs[1..], k, v);
      case Put(k0, v0) => PutKeepsKey(params[k0 := v0], pairs[1..], k, v);
    }
  }

  /** A query string written as segments joined by '&' decodes segment by segment. */
  lemma QueryOfSegments(pairs: seq<string>)
    requires |pairs| > 0 && pairs[|pairs| - 1] != []
    requires forall i | 0 <= i < |pairs| :: '&' !in pairs[i]
    ensures QueryParams(Join(pairs, "&")) == ParamsFrom(map[], pairs)
  {
    forall i | 0 <= i < |pairs| ensures IsPlain(Ampersand, pairs[i]) {
      assert forall j | 0 <= j < |pairs[i]| :: pairs[i][j] in pairs[i];
    }
    SplitOfJoin(pairs, "&", Ampersand);
  }

  lemma PlainOfNoEquals(s: string)
    requires '=' !in s
    ensures IsPlain(EqualsSign, s)
  {
    assert forall j | 0 <= j < |s| :: s[j] in s;
  }

  /** `k=v` splits on '=' into k and v. */
  lemma KeyValueSplit(k: string, v: string)
    requires k != [] && v != [] && '=' !in k && '=' !in v
    ensures Split(k + "=" + v, EqualsSign) == [k, v]
  {
    PlainOfNoEquals(k);
    PlainOfNoEquals(v);
    assert Join([k, v], "=") == k + "=" + Join([v], "=");
    SplitOfJoin([k, v], "=", EqualsSign);
  }

  /** `k=v` puts v under k. */
  lemma SegmentKeyValue(k: string, v: string)
    requires k != [] && v != [] && '=' !in k && '=' !in v
    ensures Segment(k + "=" + v) == Put(k, v)
  {
    KeyValueSplit(k, v);
  }

  /** `k=` puts the empty string under k. */
  lemma SegmentTrailingEquals(k: string)
    requires k != [] && '=' !in k
    ensures Segment(k + "=") == Put(k, "")
  {
    PlainOfNoEquals(k);
    PlainOfNoEquals([]);
    assert Join([k, []], "=") == k + "=" + [];
    assert k + "=" + [] == k + "=";
    PiecesOfJoin([k, []], "=", EqualsSign);
    assert DropTrailingEmpty([k, []]) == [k] by {
      assert [k, []][..1] == [k];
    }
  }

  /** A non-empty segment with no '=' at all is a bad request. */
  lemma SegmentWithoutEquals(pair: string)
    requires pair != [] && '=' !in pair
    ensures Segment(pair) == Throw(BadRequest)
  {
    PlainOfNoEquals(pair);
    assert Join([pair], "=") == pair;
    PiecesOfJoin([pair], "=", EqualsSign);
  }

  /** `k=v=w` has three parts and is a bad request. */
  lemma SegmentTooManyParts(k: string, v: string, w: string)
    requires k != [] && v != [] && w != [] && '=' !in k && '=' !in v && '=' !in w
    ensures Segment(k + "=" + v + "=" + w) == Throw(BadRequest)
  {
    PlainOfNoEquals(k);
    PlainOfNoEquals(v);
    PlainOfNoEquals(w);
    assert [k, v, w][1..] == [v, w] && [v, w][1..] == [w];
    assert Join([v, w], "=") == v + "=" + w;
    assert Join([k, v, w], "=") == k + "=" + (v + "=" + w);
    assert k + "=" + v + "=" + w == k + "=" + (v + "=" + w);
    SplitOfJoin([k, v, w], "=", EqualsSign);
  }

  /** A run of n '=' chars. */
  function EqualsRun(n: nat): (r: string)
    ensures |r| == n && forall i | 0 <= i < n :: r[i] == '='
  {
    seq(n, _ => '=')
  }

  lemma {:induction false} PiecesOfEqualsRun(n: nat)
    ensures Pieces(EqualsRun(n), EqualsSign) == seq(n + 1, _ => [])
    decreases n
  {
    if n > 0 {
      var s := EqualsRun(n);
      assert MatchLength(EqualsSign, s) == 1 by {
        assert "=" <= s;
      }
      assert s[1..] == EqualsRun(n - 1);
      PiecesOfEqualsRun(n - 1);
    }
  }

  /** A segment made only of '=' splits into no parts: reading its key is out of bounds. */
  lemma SegmentOnlyEquals(n: nat)
    requires n > 0
    ensures Segment(EqualsRun(n)) == Throw(IndexOutOfBounds)
  {
    var ps := Pieces(EqualsRun(n), EqualsSign);
    PiecesOfEqualsRun(n);
    var r := DropTrailingEmpty(ps);
  }
}
