/**
 * The JavaScript string operations the outline pipeline relies on, written out
 * over `seq<char>`: `trim`, `startsWith`, `split('\n')`, `includes`,
 * `toLowerCase`, `'#'.repeat(n)`, `${n}` for a natural number, and the regular
 * expression classes `\s` and `\d`.  Character classes are the ASCII ones.
 */
module Text {

  /** JavaScript `\s`, and what `String.prototype.trim` strips, restricted to ASCII. */
  predicate IsSpace(c: char) {
    c == ' ' || c == '\t' || c == '\n' || c == '\r' || c == '\U{B}' || c == '\U{C}'
  }

  /** The characters after which a multiline-mode `^` matches (ASCII ones). */
  predicate IsLineTerminator(c: char) {
    c == '\n' || c == '\r'
  }

  /** JavaScript `\d`. */
  predicate IsDigit(c: char) {
    '0' <= c <= '9'
  }

  /** The regular-expression class `[A-Z]`. */
  predicate IsUpper(c: char) {
    'A' <= c <= 'Z'
  }

  predicate AllSpace(s: string) {
    forall i :: 0 <= i < |s| ==> IsSpace(s[i])
  }

  predicate StartsWith(s: string, prefix: string) {
    |prefix| <= |s| && s[..|prefix|] == prefix
  }

  // ---------------------------------------------------------------------------
  // trim

  /** Removes the longest all-whitespace prefix. */
  function TrimStart(s: string): (r: string)
    ensures |r| <= |s| && r == s[|s| - |r|..]
    ensures AllSpace(s[..|s| - |r|])
    ensures r != [] ==> !IsSpace(r[0])
  {
    if s != [] && IsSpace(s[0]) then TrimStart(s[1..]) else s
  }

  /** Removes the longest all-whitespace suffix. */
  function TrimEnd(s: string): (r: string)
    ensures |r| <= |s| && r == s[..|r|]
    ensures AllSpace(s[|r|..])
    ensures r != [] ==> !IsSpace(r[|r| - 1])
  {
    if s != [] && IsSpace(s[|s| - 1]) then TrimEnd(s[..|s| - 1]) else s
  }

  /** `String.prototype.trim`: the result is the part of `s` between its leading and trailing whitespace. */
  function Trim(s: string): (r: string)
    ensures |r| <= |s|
    ensures r != [] ==> !IsSpace(r[0]) && !IsSpace(r[|r| - 1])
    ensures r == [] <==> AllSpace(s)
  {
    TrimFacts(s);
    TrimEnd(TrimStart(s))
  }

  lemma TrimFacts(s: string)
    ensures TrimEnd(TrimStart(s)) == [] <==> AllSpace(s)
  {
    var t := TrimStart(s);
    var k := |s| - |t|;
    if t == [] {
      assert s[..k] == s;
    } else {
      assert t[0] == s[k] && !IsSpace(t[0]);
      TrimEndKeepsFirst(t);
    }
  }

  /** A string that does not start with whitespace keeps its first character under `TrimEnd`. */
  lemma TrimEndKeepsFirst(t: string)
    requires t != [] && !IsSpace(t[0])
    ensures TrimEnd(t) != []
  {
    assert t[0..] == t;
  }

  /** Trimming a string that neither starts nor ends with whitespace changes nothing. */
  lemma TrimOfTrimmed(s: string)
    requires s == [] || (!IsSpace(s[0]) && !IsSpace(s[|s| - 1]))
    ensures Trim(s) == s
  {
  }

  // ---------------------------------------------------------------------------
  // split('\n') and its inverse, join('\n')

  /** `s.split('\n')`: the pieces between newline characters, always at least one. */
  function SplitLines(s: string): (r: seq<string>)
    ensures |r| >= 1
    ensures forall i :: 0 <= i < |r| ==> '\n' !in r[i]
  {
    if s == [] then [""]
    else
      var rest := SplitLines(s[1..]);
      if s[0] == '\n' then [""] + rest
      else
        assert forall i :: 1 <= i < |rest| ==> '\n' !in rest[i];
        [[s[0]] + rest[0]] + rest[1..]
  }

  /** `lines.join('\n')`. */
  function JoinLines(lines: seq<string>): string
    requires |lines| >= 1
  {
    if |lines| == 1 then lines[0] else lines[0] + "\n" + JoinLines(lines[1..])
  }

  /** Every line followed by a newline: the shape of text built by `+= line + '\n'`. */
  function Terminated(lines: seq<string>): string {
    if lines == [] then "" else lines[0] + "\n" + Terminated(lines[1..])
  }

  lemma {:induction false} JoinLinesPrepend(x: string, y: string, rest: seq<string>)
    ensures JoinLines([x + y] + rest) == x + JoinLines([y] + rest)
  {
    if rest != [] {
      assert ([x + y] + rest)[1..] == rest;
      assert ([y] + rest)[1..] == rest;
    }
  }

  /** Joining the pieces of a split gives back the original text. */
  lemma {:induction false} JoinSplit(s: string)
    ensures JoinLines(SplitLines(s)) == s
  {
    if s != [] {
      var rest := SplitLines(s[1..]);
      JoinSplit(s[1..]);
      if s[0] == '\n' {
        assert ([""] + rest)[1..] == rest;
        assert s == "\n" + s[1..];
      } else {
        JoinLinesPrepend([s[0]], rest[0], rest[1..]);
        assert [rest[0]] + rest[1..] == rest;
        assert s == [s[0]] + s[1..];
      }
    }
  }

  lemma {:induction false} SplitNewlineFree(line: string, t: string)
    requires '\n' !in line
    ensures SplitLines(line + t) == [line + SplitLines(t)[0]] + SplitLines(t)[1..]
  {
    if line != [] {
      assert (line + t)[1..] == line[1..] + t;
      assert (line + t)[0] == line[0];
      SplitNewlineFree(line[1..], t);
      assert [line[0]] + (line[1..] + SplitLines(t)[0]) == line + SplitLines(t)[0];
    } else {
      assert line + t == t;
      assert line + SplitLines(t)[0] == SplitLines(t)[0];
      assert [SplitLines(t)[0]] + SplitLines(t)[1..] == SplitLines(t);
    }
  }

  /** Splitting a join of newline-free pieces gives back the pieces. */
  lemma {:induction false} SplitJoin(lines: seq<string>)
    requires |lines| >= 1
    requires forall i :: 0 <= i < |lines| ==> '\n' !in lines[i]
    ensures SplitLines(JoinLines(lines)) == lines
  {
    if |lines| == 1 {
      SplitNewlineFree(lines[0], "");
      assert lines[0] + "" == lines[0];
    } else {
      var j := JoinLines(lines[1..]);
      SplitJoin(lines[1..]);
      assert ("\n" + j)[1..] == j;
      SplitNewlineFree(lines[0], "\n" + j);
      assert lines[0] + "\n" + j == lines[0] + ("\n" + j);
      assert lines[0] + "" == lines[0];
      assert [lines[0]] + lines[1..] == lines;
    }
  }

  lemma {:induction false} TerminatedIsJoin(lines: seq<string>)
    ensures Terminated(lines) == JoinLines(lines + [""])
  {
    if lines != [] {
      TerminatedIsJoin(lines[1..]);
      assert (lines + [""])[1..] == lines[1..] + [""];
      assert (lines + [""])[0] == lines[0];
    }
  }

  /** Text built as newline-terminated lines splits into those lines plus one empty piece. */
  lemma SplitTerminated(lines: seq<string>)
    requires forall i :: 0 <= i < |lines| ==> '\n' !in lines[i]
    ensures SplitLines(Terminated(lines)) == lines + [""]
  {
    TerminatedIsJoin(lines);
    SplitJoin(lines + [""]);
  }

  lemma {:induction false} TerminatedAppend(a: seq<string>, b: seq<string>)
    ensures Terminated(a + b) == Terminated(a) + Terminated(b)
  {
    if a != [] {
      assert (a + b)[1..] == a[1..] + b;
      TerminatedAppend(a[1..], b);
    } else {
      assert a + b == b;
    }
  }

  // ---------------------------------------------------------------------------
  // filter(line => line.trim())

  /** A line the filter drops: one made of whitespace only. */
  predicate IsBlank(line: string) {
    AllSpace(line)
  }

  /** `line.trim()` is falsy, i.e. trims to the empty string, exactly for a blank line. */
  lemma BlankIffTrimsEmpty(line: string)
    ensures IsBlank(line) <==> Trim(line) == []
  {
  }

  /** `lines.filter(line => line.trim())`: the lines that are not blank, in order. */
  function NonBlank(lines: seq<string>): (r: seq<string>)
    ensures |r| <= |lines|
    ensures forall i :: 0 <= i < |r| ==> !IsBlank(r[i])
  {
    if lines == [] then []
    else
      var rest := NonBlank(lines[1..]);
      if IsBlank(lines[0]) then rest
      else
        var r := [lines[0]] + rest;
        assert forall i :: 1 <= i < |r| ==> r[i] == rest[i - 1];
        r
  }

  /** The filter keeps exactly the lines that are not blank. */
  lemma {:induction false} NonBlankMembers(lines: seq<string>, x: string)
    ensures x in NonBlank(lines) <==> x in lines && !IsBlank(x)
  {
    if lines != [] {
      NonBlankMembers(lines[1..], x);
      assert lines == [lines[0]] + lines[1..];
    }
  }

  lemma {:induction false} NonBlankAppend(a: seq<string>, b: seq<string>)
    ensures NonBlank(a + b) == NonBlank(a) + NonBlank(b)
  {
    if a != [] {
      assert (a + b)[1..] == a[1..] + b;
      assert (a + b)[0] == a[0];
      NonBlankAppend(a[1..], b);
    } else {
      assert a + b == b;
    }
  }

  /** `content.split('\n').filter(line => line.trim())`. */
  function NonBlankLines(content: string): seq<string> {
    NonBlank(SplitLines(content))
  }

  /** Whitespace-only text (the empty text included) has no non-blank line. */
  lemma NonBlankLinesOfSpace(content: string)
    requires AllSpace(content)
    ensures NonBlankLines(content) == []
  {
    var lines := SplitLines(content);
    JoinSplit(content);
    forall i | 0 <= i < |lines|
      ensures IsBlank(lines[i])
    {
      PieceOfJoin(lines, i);
      assert forall c :: c in content ==> IsSpace(c);
      assert AllSpace(lines[i]) by {
        assert forall j :: 0 <= j < |lines[i]| ==> lines[i][j] in lines[i];
      }
    }
    NonBlankOfBlank(lines);
  }

  lemma {:induction false} NonBlankOfBlank(lines: seq<string>)
    requires forall i :: 0 <= i < |lines| ==> IsBlank(lines[i])
    ensures NonBlank(lines) == []
  {
    if lines != [] {
      NonBlankOfBlank(lines[1..]);
    }
  }

  /** Every character of a piece is a character of the joined text. */
  lemma {:induction false} PieceOfJoin(lines: seq<string>, i: nat)
    requires i < |lines|
    ensures forall c :: c in lines[i] ==> c in JoinLines(lines)
  {
    if i > 0 {
      PieceOfJoin(lines[1..], i - 1);
    }
  }

  // ---------------------------------------------------------------------------
  // Numbers rendered as text (`${index}`)

  function DigitChar(d: nat): (c: char)
    requires d < 10
    ensures IsDigit(c)
  {
    ('0' as int + d) as char
  }

  function DigitValue(c: char): nat
    requires IsDigit(c)
  {
    c as int - '0' as int
  }

  /** The decimal rendering of a natural number, as a template literal produces it. */
  function Decimal(n: nat): (r: string)
    ensures |r| >= 1
    ensures forall i :: 0 <= i < |r| ==> IsDigit(r[i])
  {
    if n < 10 then [DigitChar(n)] else Decimal(n / 10) + [DigitChar(n % 10)]
  }

  /** Reading a string of decimal digits as a number (most significant digit first). */
  function DecimalValue(s: string): nat
    requires forall i :: 0 <= i < |s| ==> IsDigit(s[i])
  {
    if s == [] then 0 else 10 * DecimalValue(s[..|s| - 1]) + DigitValue(s[|s| - 1])
  }

  /** Reading back a rendered number gives the number. */
  lemma {:induction false} DecimalRoundTrip(n: nat)
    ensures DecimalValue(Decimal(n)) == n
  {
    if n >= 10 {
      DecimalRoundTrip(n / 10);
      assert Decimal(n)[..|Decimal(n)| - 1] == Decimal(n / 10);
    }
  }

  /** Different numbers render differently. */
  lemma DecimalInjective(a: nat, b: nat)
    requires Decimal(a) == Decimal(b)
    ensures a == b
  {
    DecimalRoundTrip(a);
    DecimalRoundTrip(b);
  }

  // ---------------------------------------------------------------------------
  // String length in JavaScript

  /** `s.length`: UTF-16 code units, two for a character outside the Basic Multilingual Plane. */
  function Utf16Length(s: string): (n: nat)
    ensures |s| <= n <= 2 * |s|
  {
    if s == [] then 0 else (if s[0] as int > 0xFFFF then 2 else 1) + Utf16Length(s[1..])
  }

  /** Text whose characters all lie in the Basic Multilingual Plane, ASCII among them, has one unit per character. */
  lemma {:induction false} Utf16LengthBmp(s: string)
    requires forall i :: 0 <= i < |s| ==> s[i] as int <= 0xFFFF
    ensures Utf16Length(s) == |s|
  {
    if s != [] {
      Utf16LengthBmp(s[1..]);
    }
  }

  /** Every character outside that plane counts twice. */
  lemma {:induction false} Utf16LengthAstral(s: string)
    requires forall i :: 0 <= i < |s| ==> s[i] as int > 0xFFFF
    ensures Utf16Length(s) == 2 * |s|
  {
    if s != [] {
      Utf16LengthAstral(s[1..]);
    }
  }

  /** Two emoji are two characters but four code units. */
  lemma Utf16LengthExample()
    ensures |"\U{1F600}\U{1F600}"| == 2 && Utf16Length("\U{1F600}\U{1F600}") == 4
  {
    Utf16LengthAstral("\U{1F600}\U{1F600}");
  }

  // ---------------------------------------------------------------------------
  // Case, repetition, substring search

  /** `toLowerCase` on ASCII letters. */
  function LowerChar(c: char): (r: char)
    ensures !IsUpper(r)
    ensures IsUpper(c) || r == c
    ensures IsUpper(c) ==> 'a' <= r <= 'z' && r as int - 'a' as int == c as int - 'A' as int
  {
    if IsUpper(c) then (c as int + 32) as char else c
  }

  function Lower(s: string): (r: string)
    ensures |r| == |s|
    ensures forall i :: 0 <= i < |s| ==> r[i] == LowerChar(s[i])
  {
    seq(|s|, i requires 0 <= i < |s| => LowerChar(s[i]))
  }

  /** Lowering a concatenation lowers each part. */
  lemma LowerAppend(a: string, b: string)
    ensures Lower(a + b) == Lower(a) + Lower(b)
  {
    assert forall i :: 0 <= i < |a + b| ==> Lower(a + b)[i] == (Lower(a) + Lower(b))[i];
  }

  /** `ch.repeat(n)`. */
  function Repeat(ch: char, n: nat): (r: string)
    ensures |r| == n
    ensures forall i :: 0 <= i < n ==> r[i] == ch
  {
    seq(n, i => ch)
  }

  /** `haystack.includes(needle)`, searching from the left. */
  function Contains(haystack: string, needle: string): bool {
    StartsWith(haystack, needle) || (haystack != [] && Contains(haystack[1..], needle))
  }

  /** `needle` occurs in `haystack` starting at position `i`. */
  predicate OccursAt(haystack: string, needle: string, i: int) {
    0 <= i <= |haystack| - |needle| && haystack[i..i + |needle|] == needle
  }

  /** `includes` holds exactly when the needle occurs at some position. */
  lemma {:induction false} ContainsIff(haystack: string, needle: string)
    ensures Contains(haystack, needle) <==> exists i :: OccursAt(haystack, needle, i)
  {
    if StartsWith(haystack, needle) {
      assert OccursAt(haystack, needle, 0);
    } else if haystack != [] {
      ContainsIff(haystack[1..], needle);
      if Contains(haystack[1..], needle) {
        var i :| OccursAt(haystack[1..], needle, i);
        assert haystack[1..][i..i + |needle|] == haystack[i + 1..i + 1 + |needle|];
        assert OccursAt(haystack, needle, i + 1);
      }
      if i :| OccursAt(haystack, needle, i) {
        assert i != 0;
        assert haystack[1..][i - 1..i - 1 + |needle|] == haystack[i..i + |needle|];
        assert OccursAt(haystack[1..], needle, i - 1);
      }
    }
  }

  /** `s.replace(pattern, replacement)` with a string pattern: only the leftmost occurrence is replaced. */
  function ReplaceFirst(s: string, pattern: string, replacement: string): string {
    if StartsWith(s, pattern) then replacement + s[|pattern|..]
    else if s == [] then s
    else [s[0]] + ReplaceFirst(s[1..], pattern, replacement)
  }

  /**
   * `replace` changes the leftmost occurrence and nothing else, and leaves a
   * string without an occurrence as it is.
   */
  lemma {:induction false} ReplaceFirstSpec(s: string, pattern: string, replacement: string, i: int)
    requires OccursAt(s, pattern, i)
    requires forall j :: 0 <= j < i ==> !OccursAt(s, pattern, j)
    ensures ReplaceFirst(s, pattern, replacement) == s[..i] + replacement + s[i + |pattern|..]
  {
    if i == 0 {
      assert s[..|pattern|] == pattern;
    } else {
      assert !OccursAt(s, pattern, 0);
      forall j | 0 <= j < i - 1
        ensures !OccursAt(s[1..], pattern, j)
      {
        assert !OccursAt(s, pattern, j + 1);
        if j + |pattern| <= |s| - 1 {
          assert s[1..][j..j + |pattern|] == s[j + 1..j + 1 + |pattern|];
        }
      }
      assert s[1..][i - 1..i - 1 + |pattern|] == s[i..i + |pattern|];
      ReplaceFirstSpec(s[1..], pattern, replacement, i - 1);
      assert s[..i] == [s[0]] + s[1..][..i - 1];
      assert s[1..][i - 1 + |pattern|..] == s[i + |pattern|..];
    }
  }

  /** An occurrence at the very start is the one `replace` changes. */
  lemma ReplaceFirstLeading(pattern: string, rest: string, replacement: string)
    ensures ReplaceFirst(pattern + rest, pattern, replacement) == replacement + rest
  {
    var s := pattern + rest;
    assert s[..|pattern|] == pattern;
    assert s[|pattern|..] == rest;
  }

  /** Without an occurrence, `replace` returns its input. */
  lemma {:induction false} ReplaceFirstAbsent(s: string, pattern: string, replacement: string)
    requires forall j :: 0 <= j <= |s| ==> !OccursAt(s, pattern, j)
    ensures ReplaceFirst(s, pattern, replacement) == s
  {
    assert !OccursAt(s, pattern, 0);
    if s != [] {
      forall j | 0 <= j <= |s| - 1
        ensures !OccursAt(s[1..], pattern, j)
      {
        assert !OccursAt(s, pattern, j + 1);
        if j + |pattern| <= |s| - 1 {
          assert s[1..][j..j + |pattern|] == s[j + 1..j + 1 + |pattern|];
        }
      }
      ReplaceFirstAbsent(s[1..], pattern, replacement);
    }
  }

  // ---------------------------------------------------------------------------
  // Regular-expression building blocks

  /** The character classes the parsers' regular expressions repeat: `[IVX]`, `\d` and `#`. */
  datatype CharClass = RomanLetter | Digit | Hash

  predicate InClass(c: char, cls: CharClass) {
    match cls
    case RomanLetter => c == 'I' || c == 'V' || c == 'X'
    case Digit => IsDigit(c)
    case Hash => c == '#'
  }

  /** The length of the longest prefix of `s` whose characters are all in `cls` (`[...]+` is greedy). */
  function LeadingRun(s: string, cls: CharClass): (k: nat)
    ensures k <= |s|
    ensures forall i :: 0 <= i < k ==> InClass(s[i], cls)
    ensures k < |s| ==> !InClass(s[k], cls)
  {
    if s != [] && InClass(s[0], cls) then 1 + LeadingRun(s[1..], cls) else 0
  }

  /** `s.replace(/\s+/g, '-')`: every maximal run of whitespace becomes one hyphen. */
  function HyphenateSpaces(s: string): (r: string)
    ensures forall i :: 0 <= i < |r| ==> !IsSpace(r[i])
    ensures |r| <= |s|
  {
    if s == [] then []
    else if IsSpace(s[0]) then
      var rest := HyphenateSpaces(TrimStart(s[1..]));
      assert forall i :: 1 <= i < |rest| + 1 ==> ("-" + rest)[i] == rest[i - 1];
      "-" + rest
    else
      var rest := HyphenateSpaces(s[1..]);
      assert forall i :: 1 <= i < |rest| + 1 ==> ([s[0]] + rest)[i] == rest[i - 1];
      [s[0]] + rest
  }

  /** A whitespace run followed by a non-space character, or by nothing, becomes a single hyphen. */
  lemma HyphenateRun(g: string, t: string)
    requires g != [] && AllSpace(g)
    requires t == [] || !IsSpace(t[0])
    ensures HyphenateSpaces(g + t) == "-" + HyphenateSpaces(t)
  {
    assert (g + t)[0] == g[0];
    assert (g + t)[1..] == g[1..] + t;
    TrimStartOfRun(g[1..], t);
  }

  /** Characters other than whitespace are copied unchanged, in order. */
  lemma {:induction false} HyphenateWord(w: string, t: string)
    requires forall i :: 0 <= i < |w| ==> !IsSpace(w[i])
    ensures HyphenateSpaces(w + t) == w + HyphenateSpaces(t)
  {
    if w == [] {
      assert w + t == t;
    } else {
      assert (w + t)[0] == w[0];
      assert (w + t)[1..] == w[1..] + t;
      HyphenateWord(w[1..], t);
      assert w == [w[0]] + w[1..];
    }
  }

  /** `TrimStart` removes exactly a leading whitespace run that a non-space character ends. */
  lemma {:induction false} TrimStartOfRun(g: string, t: string)
    requires AllSpace(g)
    requires t == [] || !IsSpace(t[0])
    ensures TrimStart(g + t) == t
  {
    if g == [] {
      assert g + t == t;
    } else {
      assert (g + t)[0] == g[0];
      assert (g + t)[1..] == g[1..] + t;
      TrimStartOfRun(g[1..], t);
    }
  }

  /** Text without whitespace has no run to replace. */
  lemma {:induction false} HyphenateNoSpaces(s: string)
    requires forall i :: 0 <= i < |s| ==> !IsSpace(s[i])
    ensures HyphenateSpaces(s) == s
  {
    if s != [] {
      HyphenateNoSpaces(s[1..]);
    }
  }

  // ---------------------------------------------------------------------------
  // Slices of sequences, as the proofs about lines need them

  lemma ConsSlices<T>(x: T, r: seq<T>)
    ensures ([x] + r)[0] == x && ([x] + r)[1..] == r && ([x] + r)[1..|[x] + r|] == r
  {
  }

  lemma PairCons<T>(x: T, y: T, r: seq<T>)
    ensures [x, y] + r == [x] + ([y] + r)
  {
  }

  lemma WholeSlice<T>(s: seq<T>)
    ensures s[..|s|] == s
  {
  }
}
