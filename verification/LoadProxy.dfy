/**
 * The proxy-list parser of `loadProxiesFromFile`: the file's text is split
 * on '\n', every line is trimmed, and blank lines and '#' comment lines are
 * dropped. Reading the file is an effect outside the model; its result is
 * passed in, and a failed read yields the empty list.
 */
module LoadProxy {

  /** The characters `String.prototype.trim` removes: the ECMAScript
      WhiteSpace (tab, vertical tab, form feed, space, no-break space, byte
      order mark and the Unicode space separators) and LineTerminator
      characters. */
  predicate IsWhitespace(ch: char) {
    || ch == '\t' || ch == '\n' || ch == '\U{000B}' || ch == '\U{000C}' || ch == '\r'
    || ch == ' ' || ch == '\U{00A0}' || ch == '\U{1680}'
    || ('\U{2000}' <= ch <= '\U{200A}')
    || ch == '\U{2028}' || ch == '\U{2029}' || ch == '\U{202F}' || ch == '\U{205F}'
    || ch == '\U{3000}' || ch == '\U{FEFF}'
  }

  /** No whitespace at either end. */
  predicate Trimmed(s: string) {
    s == [] || (!IsWhitespace(s[0]) && !IsWhitespace(s[|s| - 1]))
  }

  /** The length of the run of whitespace `s` starts with. */
  function LeadingWhitespace(s: string): (n: nat)
    ensures n <= |s|
    ensures forall k :: 0 <= k < n ==> IsWhitespace(s[k])
    ensures n < |s| ==> !IsWhitespace(s[n])
  {
    if s != [] && IsWhitespace(s[0]) then 1 + LeadingWhitespace(s[1..]) else 0
  }

  /** The length of the run of whitespace `s` ends with. */
  function TrailingWhitespace(s: string): (n: nat)
    ensures n <= |s|
    ensures forall k :: |s| - n <= k < |s| ==> IsWhitespace(s[k])
    ensures n < |s| ==> !IsWhitespace(s[|s| - n - 1])
  {
    if s != [] && IsWhitespace(s[|s| - 1]) then 1 + TrailingWhitespace(s[..|s| - 1]) else 0
  }

  /** `line.trim()`: `s` without its leading and its trailing whitespace. */
  function Trim(s: string): (r: string)
    ensures Trimmed(r)
  {
    var i := LeadingWhitespace(s);
    var t := s[i..];
    var n := TrailingWhitespace(t);
    assert n < |t| ==> t[|t| - n - 1] == s[|s| - n - 1];
    s[i..|s| - n]
  }

  /** The trimmed string is the part of `s` right after its leading
      whitespace. */
  lemma TrimSlice(s: string)
    ensures var i := LeadingWhitespace(s);
      i + |Trim(s)| <= |s| && Trim(s) == s[i..i + |Trim(s)|]
  {
    var i := LeadingWhitespace(s);
    var n := TrailingWhitespace(s[i..]);
    assert Trim(s) == s[i..|s| - n];
  }

  /** Trimming removes whitespace only: every character of `s` before or
      after the trimmed part is whitespace. */
  lemma TrimDropsWhitespace(s: string)
    ensures var i := LeadingWhitespace(s);
      && (forall k :: 0 <= k < i ==> IsWhitespace(s[k]))
      && (forall k :: i + |Trim(s)| <= k < |s| ==> IsWhitespace(s[k]))
  {
    var i := LeadingWhitespace(s);
    var t := s[i..];
    var n := TrailingWhitespace(t);
    assert |Trim(s)| == |s| - n - i;
    forall k | |s| - n <= k < |s| ensures IsWhitespace(s[k]) {
      assert s[k] == t[k - i];
    }
  }

  /** Trimming a string that has no whitespace at its ends changes nothing. */
  lemma TrimTrimmed(s: string)
    requires Trimmed(s)
    ensures Trim(s) == s
  {
  }

  /** `data.split('\n')`: the pieces between newlines, at least one. */
  function Split(s: string): (r: seq<string>)
    ensures |r| >= 1
    ensures forall i :: 0 <= i < |r| ==> '\n' !in r[i]
  {
    if s == [] then [""]
    else if s[0] == '\n' then [""] + Split(s[1..])
    else
      var t := Split(s[1..]);
      [[s[0]] + t[0]] + t[1..]
  }

  /** `lines.join('\n')`, the inverse of `Split`. */
  function Join(lines: seq<string>): string
  {
    if lines == [] then ""
    else if |lines| == 1 then lines[0]
    else lines[0] + "\n" + Join(lines[1..])
  }

  /** A line the parser keeps: non-empty and not a '#' comment. */
  predicate Kept(line: string) {
    line != [] && line[0] != '#'
  }

  /** A line as the parser returns it. */
  predicate IsProxyLine(line: string) {
    Kept(line) && Trimmed(line) && '\n' !in line
  }

  /** `.map(f)`. */
  function Map<A, B>(f: A -> B, s: seq<A>): seq<B>
  {
    seq(|s|, i requires 0 <= i < |s| => f(s[i]))
  }

  /** Mapping works element by element. */
  lemma MapAppend<A, B>(f: A -> B, x: seq<A>, y: seq<A>)
    ensures Map(f, x + y) == Map(f, x) + Map(f, y)
  {
    var l, r := Map(f, x + y), Map(f, x) + Map(f, y);
    assert |l| == |r|;
    forall i | 0 <= i < |l| ensures l[i] == r[i] {
      if i < |x| {
        assert (x + y)[i] == x[i];
      } else {
        assert (x + y)[i] == y[i - |x|];
      }
    }
  }

  /** `.map(line => line.trim())`. */
  function TrimAll(lines: seq<string>): seq<string>
  {
    Map(Trim, lines)
  }

  /** `.filter(line => line && !line.startsWith('#'))`: the kept lines, in
      their original order. */
  function KeepLines(lines: seq<string>): seq<string>
  {
    if lines == [] then []
    else (if Kept(lines[0]) then [lines[0]] else []) + KeepLines(lines[1..])
  }

  /** Trimming newline-free lines gives trimmed, newline-free lines. */
  lemma TrimAllProxyLines(lines: seq<string>)
    requires forall i :: 0 <= i < |lines| ==> '\n' !in lines[i]
    ensures forall i :: 0 <= i < |TrimAll(lines)| ==>
      Trimmed(TrimAll(lines)[i]) && '\n' !in TrimAll(lines)[i]
  {
    forall i | 0 <= i < |lines| ensures '\n' !in Trim(lines[i]) {
      TrimNoNewline(lines[i]);
    }
  }

  /** Trimming introduces no newline. */
  lemma TrimNoNewline(s: string)
    requires '\n' !in s
    ensures '\n' !in Trim(s)
  {
    TrimSlice(s);
    var i := LeadingWhitespace(s);
    assert forall k :: 0 <= k < |Trim(s)| ==> Trim(s)[k] == s[i + k];
  }

  /** Filtering trimmed, newline-free lines leaves only proxy lines. */
  lemma {:induction false} KeepLinesSound(lines: seq<string>)
    requires forall i :: 0 <= i < |lines| ==> Trimmed(lines[i]) && '\n' !in lines[i]
    ensures forall i :: 0 <= i < |KeepLines(lines)| ==> IsProxyLine(KeepLines(lines)[i])
  {
    if lines != [] {
      KeepLinesSound(lines[1..]);
    }
  }

  /** Filtering drops no line that is kept. */
  lemma {:induction false} KeepLinesComplete(lines: seq<string>)
    ensures forall i :: 0 <= i < |lines| && Kept(lines[i]) ==> lines[i] in KeepLines(lines)
  {
    if lines != [] {
      KeepLinesComplete(lines[1..]);
      forall i | 0 <= i < |lines| && Kept(lines[i]) ensures lines[i] in KeepLines(lines) {
        if i > 0 { assert lines[i] == lines[1..][i - 1]; }
      }
    }
  }

  /** The parse of a proxy list file's text: every returned address is
      non-empty, has no whitespace at either end, holds no newline and does
      not start with '#'; and every line of the text whose trimmed form is
      neither empty nor a comment is returned. */
  function ParseProxyList(data: string): (r: seq<string>)
    ensures forall i :: 0 <= i < |r| ==> IsProxyLine(r[i])
  {
    var trimmed := TrimAll(Split(data));
    TrimAllProxyLines(Split(data));
    KeepLinesSound(trimmed);
    KeepLines(trimmed)
  }

  /** Every line of the text whose trimmed form is neither empty nor a
      comment is in the parse. */
  lemma ParseComplete(data: string, i: nat)
    requires i < |Split(data)| && Kept(Trim(Split(data)[i]))
    ensures Trim(Split(data)[i]) in ParseProxyList(data)
  {
    var trimmed := TrimAll(Split(data));
    KeepLinesComplete(trimmed);
    assert trimmed[i] == Trim(Split(data)[i]);
  }

  /** The result of reading the list file. */
  datatype ReadResult = Read(data: string) | ReadFailed

  /** `loadProxiesFromFile`: the parsed list, or the empty list when the
      file could not be read. */
  function LoadProxiesFromFile(file: ReadResult): (r: seq<string>)
    ensures file.ReadFailed? ==> r == []
    ensures file.Read? ==> r == ParseProxyList(file.data)
    ensures forall i :: 0 <= i < |r| ==> IsProxyLine(r[i])
  {
    match file
    case Read(data) => ParseProxyList(data)
    case ReadFailed => []
  }

  /** Joining the pieces of a split gives back the text. */
  lemma {:induction false} JoinSplit(s: string)
    ensures Join(Split(s)) == s
  {
    if s != [] {
      JoinSplit(s[1..]);
      var t := Split(s[1..]);
      if s[0] == '\n' {
        assert Split(s) == [""] + t;
        assert ([""] + t)[1..] == t;
        assert s == "\n" + s[1..];
      } else {
        var r := [[s[0]] + t[0]] + t[1..];
        assert Split(s) == r;
        if |t| > 1 {
          assert r[1..] == t[1..];
          assert Join(t) == t[0] + "\n" + Join(t[1..]);
        }
        assert s == [s[0]] + s[1..];
      }
    }
  }

  /** A line without a newline splits into itself. */
  lemma {:induction false} SplitLine(line: string)
    requires '\n' !in line
    ensures Split(line) == [line]
  {
    if line != [] {
      assert '\n' !in line[1..];
      SplitLine(line[1..]);
      assert line == [line[0]] + line[1..];
    }
  }

  /** Splitting text that has a newline at a given place splits each side. */
  lemma {:induction false} SplitAppend(a: string, b: string)
    ensures Split(a + "\n" + b) == Split(a) + Split(b)
  {
    if a == [] {
      assert a + "\n" + b == "\n" + b;
      assert ("\n" + b)[1..] == b;
    } else {
      var s := a + "\n" + b;
      assert s[0] == a[0] && s[1..] == a[1..] + "\n" + b;
      SplitAppend(a[1..], b);
    }
  }

  /** Splitting the join of newline-free lines gives the lines back. */
  lemma {:induction false} SplitJoin(lines: seq<string>)
    requires |lines| >= 1
    requires forall i :: 0 <= i < |lines| ==> '\n' !in lines[i]
    ensures Split(Join(lines)) == lines
  {
    if |lines| == 1 {
      SplitLine(lines[0]);
    } else {
      SplitJoin(lines[1..]);
      SplitAppend(lines[0], Join(lines[1..]));
      SplitLine(lines[0]);
      assert lines == [lines[0]] + lines[1..];
    }
  }

  /** Trimming works line by line. */
  lemma TrimAllAppend(x: seq<string>, y: seq<string>)
    ensures TrimAll(x + y) == TrimAll(x) + TrimAll(y)
  {
    MapAppend(Trim, x, y);
  }

  /** Filtering works line by line. */
  lemma {:induction false} KeepAppend(x: seq<string>, y: seq<string>)
    ensures KeepLines(x + y) == KeepLines(x) + KeepLines(y)
  {
    if x == [] {
      assert x + y == y;
    } else {
      var h := if Kept(x[0]) then [x[0]] else [];
      assert (x + y)[0] == x[0];
      assert (x + y)[1..] == x[1..] + y;
      calc {
        KeepLines(x + y);
        h + KeepLines(x[1..] + y);
        { KeepAppend(x[1..], y); }
        h + (KeepLines(x[1..]) + KeepLines(y));
        (h + KeepLines(x[1..])) + KeepLines(y);
      }
    }
  }

  /** The parse of two pieces of text joined at a newline is the parse of
      the first followed by the parse of the second: lines keep their order
      and are parsed independently of each other. */
  lemma ParseAppend(a: string, b: string)
    ensures ParseProxyList(a + "\n" + b) == ParseProxyList(a) + ParseProxyList(b)
  {
    SplitAppend(a, b);
    TrimAllAppend(Split(a), Split(b));
    KeepAppend(TrimAll(Split(a)), TrimAll(Split(b)));
  }

  /** The parse of a single line: its trimmed form, unless that is empty
      or a '#' comment. */
  lemma ParseLine(line: string)
    requires '\n' !in line
    ensures ParseProxyList(line) == (if Kept(Trim(line)) then [Trim(line)] else [])
  {
    SplitLine(line);
    var t := Trim(line);
    assert TrimAll([line]) == [t];
    assert [t][1..] == [];
    assert KeepLines([t]) == (if Kept(t) then [t] else []) + KeepLines([]);
  }

  /** Parsing the join of lines the parser would return gives them back. */
  lemma {:induction false} ParseJoin(lines: seq<string>)
    requires forall i :: 0 <= i < |lines| ==> IsProxyLine(lines[i])
    ensures ParseProxyList(Join(lines)) == lines
  {
    if lines == [] {
      ParseLine("");
      TrimTrimmed("");
    } else if |lines| == 1 {
      ParseLine(lines[0]);
      TrimTrimmed(lines[0]);
    } else {
      ParseJoin(lines[1..]);
      ParseAppend(lines[0], Join(lines[1..]));
      ParseLine(lines[0]);
      TrimTrimmed(lines[0]);
      assert lines == [lines[0]] + lines[1..];
    }
  }

  /** Writing the parsed list back one address per line and parsing it
      again gives the same list. */
  lemma ParseRoundTrip(data: string)
    ensures ParseProxyList(Join(ParseProxyList(data))) == ParseProxyList(data)
  {
    ParseJoin(ParseProxyList(data));
  }
}
