/**
 * The java.lang.String operations the server relies on, over Dafny strings.  Case mapping and
 * trimming follow Java on ASCII text; `split` follows Java exactly for the non-empty, fixed
 * delimiters the server passes to it.
 */
module JavaText {

  /** What `String.split` is given: a literal (`" "`, `"&"`, `": "`, `"\\?"`) or a character class (`"[/\\\\]"`). */
  datatype Delimiter = Literal(text: string) | AnyOf(chars: set<char>)

  /** Length of the delimiter's match at the start of s; 0 when it does not match there. */
  function MatchLength(d: Delimiter, s: string): (m: nat)
    ensures m <= |s|
  {
    match d
    case Literal(t) => if |t| > 0 && t <= s then |t| else 0
    case AnyOf(cs) => if |s| > 0 && s[0] in cs then 1 else 0
  }

  /** Whether d matches anywhere in s. */
  predicate Occurs(d: Delimiter, s: string) {
    exists i | 0 <= i < |s| :: MatchLength(d, s[i..]) > 0
  }

  /** The substrings between the leftmost non-overlapping matches of d, trailing empty ones kept. */
  function Pieces(s: string, d: Delimiter): (r: seq<string>)
    ensures |r| >= 1
    decreases |s|
  {
    if |s| == 0 then [[]]
    else if MatchLength(d, s) > 0 then [[]] + Pieces(s[MatchLength(d, s)..], d)
    else
      var rest := Pieces(s[1..], d);
      [[s[0]] + rest[0]] + rest[1..]
  }

  /** Drops the empty strings at the end of ps. */
  function DropTrailingEmpty(ps: seq<string>): (r: seq<string>)
    ensures r <= ps
    ensures r == [] || r[|r| - 1] != []
    ensures forall i | |r| <= i < |ps| :: ps[i] == []
    decreases |ps|
  {
    if ps == [] then []
    else if ps[|ps| - 1] == [] then DropTrailingEmpty(ps[..|ps| - 1])
    else ps
  }

  /**
   * `s.split(regex)` with the default limit 0.  When d matches nowhere the result is `[s]` (so
   * `"".split(d)` is `[""]`); otherwise it is the pieces less the trailing empty ones, so that an
   * input made only of delimiters gives the empty array.
   */
  function Split(s: string, d: Delimiter): seq<string> {
    var ps := Pieces(s, d);
    if |ps| == 1 then ps else DropTrailingEmpty(ps)
  }

  /** `String.join(sep, parts)`. */
  function Join(parts: seq<string>, sep: string): string
    decreases |parts|
  {
    if |parts| == 0 then []
    else if |parts| == 1 then parts[0]
    else parts[0] + sep + Join(parts[1..], sep)
  }

  /** Java's `trim` removes every leading and trailing char up to U+0020. */
  predicate IsTrimmed(c: char) { c <= ' ' }

  function TrimStart(s: string): (r: string)
    ensures |r| <= |s| && r == s[|s| - |r|..]
    ensures r == [] || !IsTrimmed(r[0])
    decreases |s|
  {
    if |s| > 0 && IsTrimmed(s[0]) then TrimStart(s[1..]) else s
  }

  function TrimEnd(s: string): (r: string)
    ensures |r| <= |s| && r == s[..|r|]
    ensures r == [] || !IsTrimmed(r[|r| - 1])
    decreases |s|
  {
    if |s| > 0 && IsTrimmed(s[|s| - 1]) then TrimEnd(s[..|s| - 1]) else s
  }

  /** `String.trim`. */
  function Trim(s: string): string {
    TrimEnd(TrimStart(s))
  }

  /** `Character.toLowerCase` on ASCII letters. */
  function LowerChar(c: char): char {
    if 'A' <= c <= 'Z' then (c as int - 'A' as int + 'a' as int) as char else c
  }

  /** `String.toLowerCase` on ASCII text. */
  function ToLower(s: string): string {
    seq(|s|, i requires 0 <= i < |s| => LowerChar(s[i]))
  }

  /** `String.equalsIgnoreCase` on ASCII text. */
  predicate EqualsIgnoreCase(a: string, b: string) {
    ToLower(a) == ToLower(b)
  }

  /** `String.endsWith`. */
  predicate EndsWith(s: string, suffix: string) {
    |suffix| <= |s| && s[|s| - |suffix|..] == suffix
  }

  /** `String.lastIndexOf(char)`: the last index holding c, or -1. */
  function LastIndexOf(s: string, c: char): (k: int)
    ensures -1 <= k < |s|
    ensures k >= 0 ==> s[k] == c
    ensures forall i | k < i < |s| :: s[i] != c
    decreases |s|
  {
    if |s| == 0 then -1
    else if s[|s| - 1] == c then |s| - 1
    else LastIndexOf(s[..|s| - 1], c)
  }

  // ---------------------------------------------------------------------------------------------
  // Facts about split, used to read back what the server writes.

  lemma {:induction false} PiecesWithoutMatch(s: string, d: Delimiter)
    requires !Occurs(d, s)
    ensures Pieces(s, d) == [s]
    decreases |s|
  {
    if |s| > 0 {
      assert s[0..] == s;
      forall i | 0 <= i < |s[1..]|
        ensures MatchLength(d, s[1..][i..]) == 0
      {
        assert s[1..][i..] == s[i + 1..];
      }
      PiecesWithoutMatch(s[1..], d);
      assert [s[0]] + s[1..] == s;
    }
  }

  /** A string in which the delimiter matches nowhere splits to itself. */
  lemma SplitWithoutMatch(s: string, d: Delimiter)
    requires !Occurs(d, s)
    ensures Split(s, d) == [s]
  {
    PiecesWithoutMatch(s, d);
  }

  /** When d matches at none of the positions of a, a is glued to the front of the first piece. */
  lemma {:induction false} PiecesAfterPlainPrefix(a: string, t: string, d: Delimiter)
    requires forall i | 0 <= i < |a| :: MatchLength(d, (a + t)[i..]) == 0
    ensures Pieces(a + t, d) == [a + Pieces(t, d)[0]] + Pieces(t, d)[1..]
    decreases |a|
  {
    if |a| > 0 {
      var s := a + t;
      assert s[0..] == s;
      assert s[1..] == a[1..] + t;
      forall i | 0 <= i < |a[1..]|
        ensures MatchLength(d, (a[1..] + t)[i..]) == 0
      {
        assert (a[1..] + t)[i..] == s[i + 1..];
      }
      PiecesAfterPlainPrefix(a[1..], t, d);
      var p := Pieces(t, d);
      assert MatchLength(d, s) == 0;
      assert Pieces(s, d) == [[s[0]] + Pieces(s[1..], d)[0]] + Pieces(s[1..], d)[1..];
      assert s[0] == a[0];
      assert [a[0]] + (a[1..] + p[0]) == a + p[0];
    } else {
      var p := Pieces(t, d);
      assert a + t == t && a + p[0] == p[0];
      assert [p[0]] + p[1..] == p;
    }
  }

  /** Whether a match of d can start with the char c. */
  predicate MayStartMatch(d: Delimiter, c: char) {
    match d
    case Literal(t) => |t| > 0 && t[0] == c
    case AnyOf(cs) => c in cs
  }

  /** Whether sep, written between two pieces, is itself a match of d. */
  predicate IsSeparator(d: Delimiter, sep: string) {
    match d
    case Literal(t) => |t| > 0 && t == sep
    case AnyOf(cs) => |sep| == 1 && sep[0] in cs
  }

  /** Whether no char of s can start a match of d. */
  predicate IsPlain(d: Delimiter, s: string) {
    forall j | 0 <= j < |s| :: !MayStartMatch(d, s[j])
  }

  lemma SeparatorMatches(d: Delimiter, sep: string, tail: string)
    requires IsSeparator(d, sep)
    ensures MatchLength(d, sep + tail) == |sep| && (sep + tail)[|sep|..] == tail
  {
    assert sep <= sep + tail;
  }

  lemma PlainPrefixHasNoMatch(d: Delimiter, a: string, t: string)
    requires IsPlain(d, a)
    ensures forall i | 0 <= i < |a| :: MatchLength(d, (a + t)[i..]) == 0
  {
    forall i | 0 <= i < |a| ensures MatchLength(d, (a + t)[i..]) == 0 {
      assert (a + t)[i..][0] == a[i];
    }
  }

  /** A separator that matches d, between parts in which d cannot start, cuts their join back into the parts. */
  lemma {:induction false} PiecesOfJoin(parts: seq<string>, sep: string, d: Delimiter)
    requires IsSeparator(d, sep) && |parts| > 0
    requires forall i | 0 <= i < |parts| :: IsPlain(d, parts[i])
    ensures Pieces(Join(parts, sep), d) == parts
    decreases |parts|
  {
    if |parts| == 1 {
      PlainPrefixHasNoMatch(d, parts[0], []);
      assert parts[0] + [] == parts[0];
      PiecesWithoutMatch(parts[0], d);
    } else {
      var tail := Join(parts[1..], sep);
      var t := sep + tail;
      assert Join(parts, sep) == parts[0] + t;
      PlainPrefixHasNoMatch(d, parts[0], t);
      PiecesAfterPlainPrefix(parts[0], t, d);
      SeparatorMatches(d, sep, tail);
      PiecesOfJoin(parts[1..], sep, d);
      assert Pieces(t, d) == [[]] + parts[1..];
      assert parts[0] + [] == parts[0];
      assert [parts[0]] + parts[1..] == parts;
    }
  }

  /** Splitting a join gives back the parts, when the last one is not empty. */
  lemma SplitOfJoin(parts: seq<string>, sep: string, d: Delimiter)
    requires IsSeparator(d, sep) && |parts| > 0 && parts[|parts| - 1] != []
    requires forall i | 0 <= i < |parts| :: IsPlain(d, parts[i])
    ensures Split(Join(parts, sep), d) == parts
  {
    PiecesOfJoin(parts, sep, d);
  }

  lemma {:induction false} JoinSnocEmpty(parts: seq<string>, sep: string)
    requires |parts| > 0
    ensures Join(parts + [[]], sep) == Join(parts, sep) + sep
    decreases |parts|
  {
    if |parts| == 1 {
      assert Join(parts + [[]], sep) == parts[0] + sep + Join([[]], sep);
    } else {
      assert (parts + [[]])[1..] == parts[1..] + [[]];
      JoinSnocEmpty(parts[1..], sep);
    }
  }

  /** A separator after the last part adds only a trailing empty piece, which `split` drops. */
  lemma SplitIgnoresTrailingSeparator(parts: seq<string>, sep: string, d: Delimiter)
    requires IsSeparator(d, sep) && |parts| > 0 && parts[|parts| - 1] != []
    requires forall i | 0 <= i < |parts| :: IsPlain(d, parts[i])
    ensures Split(Join(parts, sep) + sep, d) == parts
  {
    var ps := parts + [[]];
    assert forall i | 0 <= i < |ps| :: IsPlain(d, ps[i]) by {
      forall i | 0 <= i < |ps| ensures IsPlain(d, ps[i]) {
        if i < |parts| { assert ps[i] == parts[i]; }
      }
    }
    PiecesOfJoin(ps, sep, d);
    JoinSnocEmpty(parts, sep);
    assert ps[..|ps| - 1] == parts;
  }

  // ---------------------------------------------------------------------------------------------
  // The delimiters the request parsers split on, and splitting around them.

  const Space: Delimiter := Literal(" ")
  const QuestionMark: Delimiter := Literal("?")
  const PathSeparator: Delimiter := AnyOf({'/', '\\'})
  const HeaderSeparator: Delimiter := Literal(": ")

  /** A string without c has no match of a delimiter that can only start at c. */
  lemma NoCharPlain(d: Delimiter, c: char, s: string)
    requires c !in s && (forall x :: MayStartMatch(d, x) ==> x == c)
    ensures IsPlain(d, s)
  {
    assert forall j | 0 <= j < |s| :: s[j] in s;
  }

  /** A string in which no char can start a match of d has no match. */
  lemma PlainHasNoMatch(d: Delimiter, s: string)
    requires IsPlain(d, s)
    ensures !Occurs(d, s)
  {
    PlainPrefixHasNoMatch(d, s, []);
    assert s + [] == s;
  }

  /**
   * A header line splits on ": " into its name and its value whenever neither holds ": " itself;
   * a lone ':' in either, as in a URL or a `host:port`, does not matter to the split.
   */
  lemma SplitOnHeaderSeparator(name: string, value: string)
    requires !Occurs(HeaderSeparator, name) && !Occurs(HeaderSeparator, value) && value != []
    ensures Split(name + ": " + value, HeaderSeparator) == [name, value]
  {
    var t := ": " + value;
    assert name + ": " + value == name + t;
    forall i | 0 <= i < |name|
      ensures MatchLength(HeaderSeparator, (name + t)[i..]) == 0
    {
      if i < |name| - 1 {
        assert MatchLength(HeaderSeparator, name[i..]) == 0;
        assert (name + t)[i..][0] == name[i..][0] && (name + t)[i..][1] == name[i..][1];
      } else {
        assert (name + t)[i..][1] == ':';
      }
    }
    PiecesAfterPlainPrefix(name, t, HeaderSeparator);
    SeparatorMatches(HeaderSeparator, ": ", value);
    PiecesWithoutMatch(value, HeaderSeparator);
    assert Pieces(t, HeaderSeparator) == [[], value];
    assert name + [] == name;
  }

  lemma SplitOnSpace(parts: seq<string>)
    requires |parts| > 0 && parts[|parts| - 1] != []
    requires forall i | 0 <= i < |parts| :: ' ' !in parts[i]
    ensures Split(Join(parts, " "), Space) == parts
  {
    forall i | 0 <= i < |parts| ensures IsPlain(Space, parts[i]) {
      NoCharPlain(Space, ' ', parts[i]);
    }
    SplitOfJoin(parts, " ", Space);
  }

  lemma JoinThree(a: string, b: string, c: string, sep: string)
    ensures Join([a, b, c], sep) == a + sep + b + sep + c
  {
    assert [a, b, c][1..] == [b, c] && [b, c][1..] == [c];
    assert Join([b, c], sep) == b + sep + c;
    assert Join([a, b, c], sep) == a + sep + (b + sep + c);
  }
}
