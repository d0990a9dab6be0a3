/** The INI compaction filter of scripts/compressIni.js: the text is split at `\n`, full-line `;`
    comments are dropped, trailing `;` comments are cut, blank lines are dropped, the blanks around
    the first `=` of each line are removed and the lines are joined again with `\n`.

    The comment cut is a parameter of the pipeline. `Corrected` removes everything from the first `;`
    to the end of the line, keeping the `\r` that ends a line of a CRLF file; `AsWritten` is the cut
    JavaScript's regular expression performs, which stops before the first line terminator after the
    `;`. Everything but the absence of `;` and idempotence is proved for both cuts, and the two agree
    on every LF or CRLF text without U+2028 and U+2029. */
module IniCompaction {

  const LF: char := '\n'

  predicate IsSpaceOrTab(c: char) {
    c == ' ' || c == '\t'
  }

  /** The characters that `.` in a JavaScript regular expression does not match. */
  predicate IsLineTerminator(c: char) {
    c == '\n' || c == '\r' || c == '\U{2028}' || c == '\U{2029}'
  }

  /** The characters `String.prototype.trim` removes (ECMAScript WhiteSpace and LineTerminator). */
  predicate IsJsWhitespace(c: char) {
    || c == '\t' || c == '\U{B}' || c == '\U{C}' || c == ' ' || c == '\U{A0}' || c == '\U{FEFF}'
    || c == '\U{1680}' || ('\U{2000}' <= c <= '\U{200A}') || c == '\U{202F}' || c == '\U{205F}'
    || c == '\U{3000}' || IsLineTerminator(c)
  }

  /** `line.trim() === ''`. */
  predicate IsBlank(line: string) {
    forall i :: 0 <= i < |line| ==> IsJsWhitespace(line[i])
  }

  /** The index of the first `c` in `s`. */
  function FirstIndex(s: string, c: char): (k: nat)
    requires c in s
    ensures k < |s| && s[k] == c
    ensures forall i :: 0 <= i < k ==> s[i] != c
  {
    if s[0] == c then 0 else FirstIndex(s[1..], c) + 1
  }

  /** Any index holding the first `c` is the one `FirstIndex` finds. */
  lemma FirstIndexUnique(s: string, c: char, k: nat)
    requires k < |s| && s[k] == c
    requires forall i :: 0 <= i < k ==> s[i] != c
    ensures FirstIndex(s, c) == k
  {
  }

  // ---------------------------------------------------------------------------------------------
  // Splitting and joining lines (`split('\n')`, `join('\n')`)

  /** `text.split('\n')`: never empty, and no piece holds a `\n`. */
  function SplitLines(text: string): (lines: seq<string>)
    ensures |lines| >= 1
    ensures forall i :: 0 <= i < |lines| ==> LF !in lines[i]
    decreases |text|
  {
    if LF !in text then [text]
    else
      var k := FirstIndex(text, LF);
      [text[..k]] + SplitLines(text[k + 1..])
  }

  /** `lines.join('\n')`. */
  function JoinLines(lines: seq<string>): string {
    if |lines| == 0 then ""
    else if |lines| == 1 then lines[0]
    else lines[0] + [LF] + JoinLines(lines[1..])
  }

  /** Joining the pieces of a split gives the text back. */
  lemma {:induction false} JoinSplit(text: string)
    ensures JoinLines(SplitLines(text)) == text
    decreases |text|
  {
    if LF in text {
      var k := FirstIndex(text, LF);
      var rest := text[k + 1..];
      var lines := SplitLines(rest);
      assert SplitLines(text) == [text[..k]] + lines;
      JoinSplit(rest);
      JoinLinesCons(text[..k], lines);
      SplitAround(text, k);
    } else {
      assert SplitLines(text) == [text];
    }
  }

  /** A text is the part before position `k`, the character at `k` and the part after. */
  lemma SplitAround(text: string, k: nat)
    requires k < |text|
    ensures text == text[..k] + [text[k]] + text[k + 1..]
  {
  }

  /** A split at the first `\n`. */
  lemma SplitLinesAt(text: string, k: nat)
    requires k < |text| && text[k] == LF
    requires forall i :: 0 <= i < k ==> text[i] != LF
    ensures SplitLines(text) == [text[..k]] + SplitLines(text[k + 1..])
  {
    FirstIndexUnique(text, LF, k);
  }

  lemma JoinLinesCons(line: string, lines: seq<string>)
    requires |lines| >= 1
    ensures JoinLines([line] + lines) == line + [LF] + JoinLines(lines)
  {
    assert ([line] + lines)[1..] == lines;
  }

  /** Splitting a join of `\n`-free lines gives the lines back. */
  lemma {:induction false} SplitJoin(lines: seq<string>)
    requires |lines| >= 1
    requires forall i :: 0 <= i < |lines| ==> LF !in lines[i]
    ensures SplitLines(JoinLines(lines)) == lines
  {
    if |lines| > 1 {
      var first, rest := lines[0], JoinLines(lines[1..]);
      var text := first + [LF] + rest;
      assert lines == [first] + lines[1..];
      JoinLinesCons(first, lines[1..]);
      assert LF !in first;
      forall i | 0 <= i < |first| ensures text[i] != LF {
        assert text[i] == first[i];
      }
      SplitLinesAt(text, |first|);
      assert text[..|first|] == first;
      assert text[|first| + 1..] == rest;
      SplitJoin(lines[1..]);
    } else {
      assert JoinLines(lines) == lines[0];
    }
  }

  /** Every character of a piece of the split is a character of the text. */
  lemma {:induction false} SplitLinesChars(text: string, i: nat, c: char)
    requires i < |SplitLines(text)| && c in SplitLines(text)[i]
    ensures c in text
    decreases |text|
  {
    if LF in text {
      var k := FirstIndex(text, LF);
      assert SplitLines(text) == [text[..k]] + SplitLines(text[k + 1..]);
      if i == 0 {
        PrefixMember(text, k, c);
      } else {
        assert SplitLines(text)[i] == SplitLines(text[k + 1..])[i - 1];
        SplitLinesChars(text[k + 1..], i - 1, c);
        SuffixMember(text, k + 1, c);
      }
    } else {
      assert SplitLines(text) == [text];
    }
  }

  // ---------------------------------------------------------------------------------------------
  // The four per-line stages

  /** `s` without its leading spaces and tabs. */
  function DropLeadingBlanks(s: string): (r: string)
    ensures |r| <= |s| && r == s[|s| - |r|..]
    ensures forall i :: 0 <= i < |s| - |r| ==> IsSpaceOrTab(s[i])
    ensures |r| > 0 ==> !IsSpaceOrTab(r[0])
  {
    if |s| > 0 && IsSpaceOrTab(s[0]) then DropLeadingBlanks(s[1..]) else s
  }

  /** `s` without its trailing spaces and tabs. */
  function DropTrailingBlanks(s: string): (r: string)
    ensures |r| <= |s| && r == s[..|r|]
    ensures forall i :: |r| <= i < |s| ==> IsSpaceOrTab(s[i])
    ensures |r| > 0 ==> !IsSpaceOrTab(r[|r| - 1])
  {
    if |s| > 0 && IsSpaceOrTab(s[|s| - 1]) then DropTrailingBlanks(s[..|s| - 1]) else s
  }

  /** `/^[ \t]*;/`: after optional spaces and tabs the line starts with `;`. */
  predicate IsCommentLine(line: string) {
    var rest := DropLeadingBlanks(line);
    |rest| > 0 && rest[0] == ';'
  }

  const CR: char := '\r'

  /** The line ends in a carriage return, as every line of a CRLF file does once split at `\n`. */
  predicate EndsWithCR(line: string) {
    |line| > 0 && line[|line| - 1] == CR
  }

  /** The comment cut: everything from the first `;` to the end of the line is removed, except the
      carriage return that ends a line of a CRLF file. */
  function StripComment(line: string): (r: string)
    ensures ';' !in r
    ensures ';' !in line ==> r == line
    ensures ';' in line ==>
      var k := FirstIndex(line, ';');
      && k <= |r| <= k + 1 && r[..k] == line[..k]
      && (|r| == k + 1 <==> EndsWithCR(line))
      && (|r| == k + 1 ==> r[k] == CR)
  {
    if ';' in line then
      var k := FirstIndex(line, ';');
      assert forall i :: 0 <= i < k ==> line[..k][i] != ';';
      line[..k] + (if EndsWithCR(line) then [CR] else [])
    else line
  }

  /** The length of the longest prefix of `s` free of line terminators. */
  function LengthToTerminator(s: string): (n: nat)
    ensures n <= |s|
    ensures forall i :: 0 <= i < n ==> !IsLineTerminator(s[i])
    ensures n < |s| ==> IsLineTerminator(s[n])
  {
    if |s| == 0 || IsLineTerminator(s[0]) then 0 else 1 + LengthToTerminator(s[1..])
  }

  // `line.replace(/;.*/, '')` as JavaScript evaluates it: the match starts at the first `;` and
  // `.` stops before the first line terminator after it, which stays in the line.
  function StripCommentAsWritten(line: string): string {
    if ';' in line then
      var k := FirstIndex(line, ';');
      line[..k] + line[k + LengthToTerminator(line[k..])..]
    else line
  }

  /** No blank sits directly before or after the first `=` of the line. */
  predicate TightAroundFirstEquals(line: string) {
    '=' in line ==>
      var e := FirstIndex(line, '=');
      (e > 0 ==> !IsSpaceOrTab(line[e - 1])) && (e + 1 < |line| ==> !IsSpaceOrTab(line[e + 1]))
  }

  // `line.replace(/[ \t]*=[ \t]*/, '=')`: the leftmost match is the run of blanks before the first
  // `=`, that `=`, and the run of blanks after it; later `=` signs are not touched.
  function TightenEquals(line: string): string {
    if '=' in line then
      var e := FirstIndex(line, '=');
      DropTrailingBlanks(line[..e]) + "=" + DropLeadingBlanks(line[e + 1..])
    else line
  }

  /** The first `=` of `before + "=" + after` is the middle one when `before` holds none. */
  lemma FirstEqualsOfJoin(before: string, after: string)
    requires '=' !in before
    ensures FirstIndex(before + "=" + after, '=') == |before|
  {
    var r := before + "=" + after;
    assert forall i :: 0 <= i < |before| ==> r[i] == before[i];
    assert r[|before|] == '=';
    FirstIndexUnique(r, '=', |before|);
  }

  /** What tightening does: the first `=` ends up with no blank beside it, a `=` stays exactly when
      there was one, and a line without `=` is unchanged. */
  lemma TightenEqualsMeaning(line: string)
    ensures TightAroundFirstEquals(TightenEquals(line))
    ensures '=' !in line ==> TightenEquals(line) == line
    ensures '=' in line <==> '=' in TightenEquals(line)
  {
    if '=' in line {
      var e := FirstIndex(line, '=');
      NoEqualsBeforeFirst(line, e);
      TightJoin(DropTrailingBlanks(line[..e]), DropLeadingBlanks(line[e + 1..]));
    }
  }

  /** Around the first `=`, the text before it loses its trailing blanks and the text after it
      its leading blanks; nothing else of the line changes. */
  lemma TightenEqualsParts(line: string)
    requires '=' in line
    ensures var r, e := TightenEquals(line), FirstIndex(line, '=');
      '=' in r &&
      var f := FirstIndex(r, '=');
      r[..f] == DropTrailingBlanks(line[..e]) && r[f + 1..] == DropLeadingBlanks(line[e + 1..])
  {
    var e := FirstIndex(line, '=');
    NoEqualsBeforeFirst(line, e);
    TightJoin(DropTrailingBlanks(line[..e]), DropLeadingBlanks(line[e + 1..]));
  }

  lemma NoEqualsBeforeFirst(line: string, e: nat)
    requires e <= |line|
    requires forall i :: 0 <= i < e ==> line[i] != '='
    ensures '=' !in DropTrailingBlanks(line[..e])
  {
    var before := DropTrailingBlanks(line[..e]);
    forall i | 0 <= i < |before| ensures before[i] != '=' {
      assert before[i] == line[..e][i];
    }
  }

  /** Joining a text that ends in no blank and a text that starts with no blank around a `=`
      gives a tight line whose first `=` is that one. */
  lemma TightJoin(before: string, after: string)
    requires '=' !in before
    requires |before| > 0 ==> !IsSpaceOrTab(before[|before| - 1])
    requires |after| > 0 ==> !IsSpaceOrTab(after[0])
    ensures '=' in before + "=" + after
    ensures var r := before + "=" + after;
      FirstIndex(r, '=') == |before| && TightAroundFirstEquals(r)
      && r[..|before|] == before && r[|before| + 1..] == after
  {
    var r := before + "=" + after;
    FirstEqualsOfJoin(before, after);
    assert r[..|before|] == before;
    assert r[|before| + 1..] == after;
    assert |before| > 0 ==> r[|before| - 1] == before[|before| - 1];
    assert |before| + 1 < |r| ==> r[|before| + 1] == after[0];
  }

  /** Tightening introduces no character that was not in the line. */
  lemma TightenEqualsChars(line: string, c: char)
    requires c in TightenEquals(line)
    ensures c in line
  {
    if '=' in line {
      var e := FirstIndex(line, '=');
      var before, after := DropTrailingBlanks(line[..e]), DropLeadingBlanks(line[e + 1..]);
      assert TightenEquals(line) == before + "=" + after;
      if c in before {
        PrefixMember(line[..e], |before|, c);
        PrefixMember(line, e, c);
      } else if c in after {
        SuffixMember(line[e + 1..], |line[e + 1..]| - |after|, c);
        SuffixMember(line, e + 1, c);
      } else {
        assert line[e] == c;
      }
    }
  }

  lemma PrefixMember<T>(s: seq<T>, n: nat, x: T)
    requires n <= |s| && x in s[..n]
    ensures x in s
  {
    var i :| 0 <= i < n && s[..n][i] == x;
    assert s[i] == x;
  }

  lemma SuffixMember<T>(s: seq<T>, n: nat, x: T)
    requires n <= |s| && x in s[n..]
    ensures x in s
  {
    var i :| 0 <= i < |s| - n && s[n..][i] == x;
    assert s[n + i] == x;
  }


  // ---------------------------------------------------------------------------------------------
  // The pipeline

  function Filter<T>(keep: T -> bool, s: seq<T>): (r: seq<T>)
    ensures |r| <= |s|
    ensures forall x :: x in r ==> x in s && keep(x)
  {
    if s == [] then [] else (if keep(s[0]) then [s[0]] else []) + Filter(keep, s[1..])
  }

  function Map<T, U>(f: T -> U, s: seq<T>): (r: seq<U>)
    ensures |r| == |s|
    ensures forall i :: 0 <= i < |s| ==> r[i] == f(s[i])
  {
    if s == [] then [] else [f(s[0])] + Map(f, s[1..])
  }

  predicate NotCommentLine(line: string) { !IsCommentLine(line) }

  predicate NotBlank(line: string) { !IsBlank(line) }

  /** The comment cut of the third stage: the corrected one, or the one the regular expression
      performs. */
  datatype Cut = Corrected | AsWritten

  function Cutter(cut: Cut): string -> string {
    match cut
    case Corrected => StripComment
    case AsWritten => StripCommentAsWritten
  }

  /** The lines of the cleaned text: split, drop comment lines, cut comments, drop blank lines,
      tighten the first `=`. */
  function CleanIniLines(cut: Cut, text: string): seq<string> {
    Map(TightenEquals, Filter(NotBlank, Map(Cutter(cut), Filter(NotCommentLine, SplitLines(text)))))
  }

  /** The cleaned text. */
  function CleanText(cut: Cut, text: string): string {
    JoinLines(CleanIniLines(cut, text))
  }

  /** The cleaned text with the corrected comment cut. */
  function CleanIni(text: string): string {
    CleanText(Corrected, text)
  }

  /** The cleaned text as JavaScript computes it. */
  function CleanIniAsWritten(text: string): string {
    CleanText(AsWritten, text)
  }

  // ---------------------------------------------------------------------------------------------
  // The pipeline line by line

  /** Whether an input line leaves a line in the output. */
  predicate Kept(cut: Cut, line: string) {
    !IsCommentLine(line) && !IsBlank(Cutter(cut)(line))
  }

  /** The output line an input line becomes, when it is kept. */
  function CleanLine(cut: Cut, line: string): string {
    TightenEquals(Cutter(cut)(line))
  }

  /** What one input line contributes to the output: its cleaned form, or nothing. */
  function Emit(cut: Cut, line: string): seq<string> {
    if Kept(cut, line) then [CleanLine(cut, line)] else []
  }

  /** The pipeline applied to each line by itself. */
  function CleanLines(cut: Cut, lines: seq<string>): seq<string> {
    if lines == [] then [] else Emit(cut, lines[0]) + CleanLines(cut, lines[1..])
  }

  lemma {:induction false} FilterConcat<T>(keep: T -> bool, a: seq<T>, b: seq<T>)
    ensures Filter(keep, a + b) == Filter(keep, a) + Filter(keep, b)
  {
    if a != [] {
      assert (a + b)[1..] == a[1..] + b;
      FilterConcat(keep, a[1..], b);
    } else {
      assert a + b == b;
    }
  }

  lemma {:induction false} MapConcat<T, U>(f: T -> U, a: seq<T>, b: seq<T>)
    ensures Map(f, a + b) == Map(f, a) + Map(f, b)
  {
  }

  /** The staged pipeline and the line-by-line one compute the same lines, for either cut. */
  lemma {:induction false} StagesAreLineByLine(cut: Cut, lines: seq<string>)
    ensures Map(TightenEquals, Filter(NotBlank, Map(Cutter(cut), Filter(NotCommentLine, lines))))
      == CleanLines(cut, lines)
  {
    if lines != [] {
      var f := Cutter(cut);
      var x, rest := lines[0], lines[1..];
      assert lines == [x] + rest;
      StagesAreLineByLine(cut, rest);
      FilterConcat(NotCommentLine, [x], rest);
      var a1, a2 := Filter(NotCommentLine, [x]), Filter(NotCommentLine, rest);
      MapConcat(f, a1, a2);
      var b1, b2 := Map(f, a1), Map(f, a2);
      FilterConcat(NotBlank, b1, b2);
      var c1, c2 := Filter(NotBlank, b1), Filter(NotBlank, b2);
      MapConcat(TightenEquals, c1, c2);
      StagesOfOneLine(cut, x);
      assert CleanLines(cut, lines) == Emit(cut, x) + CleanLines(cut, rest);
    }
  }

  /** The four stages applied to one line give what that line contributes. */
  lemma StagesOfOneLine(cut: Cut, x: string)
    ensures Map(TightenEquals, Filter(NotBlank, Map(Cutter(cut), Filter(NotCommentLine, [x])))) == Emit(cut, x)
  {
    var a := Filter(NotCommentLine, [x]);
    assert a == if NotCommentLine(x) then [x] else [];
    var b := Map(Cutter(cut), a);
    assert b == if NotCommentLine(x) then [Cutter(cut)(x)] else [];
  }

  /** `CleanIniLines` is the line-by-line pipeline over the split text. */
  lemma CleanIniLinesByLine(cut: Cut, text: string)
    ensures CleanIniLines(cut, text) == CleanLines(cut, SplitLines(text))
  {
    StagesAreLineByLine(cut, SplitLines(text));
  }

  /** Order preservation: the output of a concatenation is the concatenation of the outputs. */
  lemma {:induction false} CleanLinesConcat(cut: Cut, a: seq<string>, b: seq<string>)
    ensures CleanLines(cut, a + b) == CleanLines(cut, a) + CleanLines(cut, b)
  {
    if a != [] {
      assert (a + b)[1..] == a[1..] + b;
      CleanLinesConcat(cut, a[1..], b);
      assert CleanLines(cut, a + b) == Emit(cut, a[0]) + CleanLines(cut, a[1..] + b);
    } else {
      assert a + b == b;
    }
  }

  /** A single line yields its cleaned form when it is kept, and nothing otherwise. */
  lemma CleanLinesSingle(cut: Cut, line: string)
    ensures CleanLines(cut, [line]) == if Kept(cut, line) then [CleanLine(cut, line)] else []
  {
    assert [line][1..] == [];
  }

  /** The output never has more lines than the input. */
  lemma {:induction false} CleanLinesLength(cut: Cut, lines: seq<string>)
    ensures |CleanLines(cut, lines)| <= |lines|
  {
    if lines != [] {
      CleanLinesLength(cut, lines[1..]);
    }
  }

  /** A comment line contributes nothing, wherever it stands. */
  lemma CommentLineDropped(cut: Cut, before: seq<string>, line: string, after: seq<string>)
    requires IsCommentLine(line)
    ensures CleanLines(cut, before + [line] + after) == CleanLines(cut, before) + CleanLines(cut, after)
  {
    CleanLinesConcat(cut, before + [line], after);
    CleanLinesConcat(cut, before, [line]);
    CleanLinesSingle(cut, line);
  }

  // ---------------------------------------------------------------------------------------------
  // Comment lines

  /** A comment line always holds a `;`. */
  lemma CommentLineHasSemicolon(line: string)
    requires IsCommentLine(line)
    ensures ';' in line
  {
    var rest := DropLeadingBlanks(line);
    assert rest[0] == line[|line| - |rest|];
  }

  /** `IsCommentLine` agrees with the regular expression read literally: some run of blanks at the
      start of the line is followed by a `;`. */
  lemma IsCommentLineMeaning(line: string)
    ensures IsCommentLine(line) <==>
      exists n :: 0 <= n < |line| && line[n] == ';' && forall i :: 0 <= i < n ==> IsSpaceOrTab(line[i])
  {
    var rest := DropLeadingBlanks(line);
    var m := |line| - |rest|;
    if IsCommentLine(line) {
      assert line[m] == rest[0];
    }
    if n :| 0 <= n < |line| && line[n] == ';' && forall i :: 0 <= i < n ==> IsSpaceOrTab(line[i]) {
      assert m <= n;
      assert rest[0] == line[m];
    }
  }

  /** The index of the first character that is neither a space nor a tab, `|s|` when there is none. */
  function FirstNonBlank(s: string): (m: nat)
    ensures m <= |s|
    ensures forall i :: 0 <= i < m ==> IsSpaceOrTab(s[i])
    ensures m < |s| ==> !IsSpaceOrTab(s[m])
    ensures IsCommentLine(s) <==> m < |s| && s[m] == ';'
  {
    var rest := DropLeadingBlanks(s);
    assert |rest| > 0 ==> rest[0] == s[|s| - |rest|];
    |s| - |rest|
  }

  /** A line that agrees with `s` up to and including the first non-blank of `s` is a comment line
      exactly when that character is `;`. */
  lemma SameStartSameComment(s: string, r: string, m: nat)
    requires m < |s| && m < |r|
    requires forall i :: 0 <= i <= m ==> r[i] == s[i]
    requires forall i :: 0 <= i < m ==> IsSpaceOrTab(s[i])
    requires !IsSpaceOrTab(s[m])
    ensures IsCommentLine(r) <==> s[m] == ';'
  {
    forall i | 0 <= i < m ensures IsSpaceOrTab(r[i]) {
      assert r[i] == s[i];
    }
    assert r[m] == s[m];
    assert FirstNonBlank(r) == m;
  }

  // ---------------------------------------------------------------------------------------------
  // What the two comment cuts share

  /** Without a `;` neither cut changes the line. */
  lemma CutWithoutSemicolon(cut: Cut, line: string)
    requires ';' !in line
    ensures Cutter(cut)(line) == line
  {
  }

  /** Both cuts keep the part of the line before its first `;`. */
  lemma CutKeepsPrefix(cut: Cut, line: string)
    requires ';' in line
    ensures var k := FirstIndex(line, ';');
      k <= |Cutter(cut)(line)| && Cutter(cut)(line)[..k] == line[..k]
  {
    var k := FirstIndex(line, ';');
    if cut == AsWritten {
      var n := LengthToTerminator(line[k..]);
      assert StripCommentAsWritten(line) == line[..k] + line[k + n..];
    }
  }

  /** Neither cut introduces a character that was not in the line. */
  lemma CutChars(cut: Cut, line: string, c: char)
    requires c in Cutter(cut)(line)
    ensures c in line
  {
    if ';' in line {
      var k := FirstIndex(line, ';');
      if c in line[..k] {
        PrefixMember(line, k, c);
      } else if cut == Corrected {
        assert StripComment(line) == line[..k] + (if EndsWithCR(line) then [CR] else []);
        assert line[|line| - 1] == c;
      } else {
        var n := LengthToTerminator(line[k..]);
        assert StripCommentAsWritten(line) == line[..k] + line[k + n..];
        SuffixMember(line, k + n, c);
      }
    }
  }

  /** Neither cut turns a line that is not a comment line into one. */
  lemma CutKeepsNonComment(cut: Cut, line: string)
    requires !IsCommentLine(line)
    ensures !IsCommentLine(Cutter(cut)(line))
  {
    if ';' in line {
      var k, m := FirstIndex(line, ';'), FirstNonBlank(line);
      var r := Cutter(cut)(line);
      assert m < k;
      CutKeepsPrefix(cut, line);
      forall i | 0 <= i <= m ensures r[i] == line[i] {
        assert r[..k][i] == line[..k][i];
      }
      SameStartSameComment(line, r, m);
    }
  }

  /** Tightening does not turn a line that is not a comment line into one. */
  lemma TightenKeepsNonComment(s: string)
    requires !IsCommentLine(s)
    ensures !IsCommentLine(TightenEquals(s))
  {
    if '=' in s {
      var e := FirstIndex(s, '=');
      var before := DropTrailingBlanks(s[..e]);
      assert before == s[..|before|];
      JoinKeepsNonComment(s, e, before, DropLeadingBlanks(s[e + 1..]));
    }
  }

  /** A prefix of `s` taken before a `=` of `s`, then `=`, then anything, is a comment line only
      when `s` is one. */
  lemma JoinKeepsNonComment(s: string, e: nat, before: string, after: string)
    requires !IsCommentLine(s) && e < |s| && s[e] == '='
    requires |before| <= e && before == s[..|before|]
    ensures !IsCommentLine(before + "=" + after)
  {
    var r := before + "=" + after;
    var m := FirstNonBlank(s);
    assert m <= e;
    forall i | 0 <= i < |before| ensures r[i] == s[i] {
      assert r[i] == before[i];
      assert before[i] == s[..|before|][i];
    }
    assert r[|before|] == '=';
    if m < |before| {
      SameStartSameComment(s, r, m);
    } else {
      SameStartSameComment(r, r, |before|);
    }
  }

  // ---------------------------------------------------------------------------------------------
  // Output lines

  /** What every output line satisfies, whichever cut is used. */
  predicate IsTidyLine(line: string) {
    && !IsCommentLine(line)
    && !IsBlank(line)
    && TightAroundFirstEquals(line)
  }

  /** What every output line of the corrected pipeline satisfies. */
  predicate IsCleanLine(line: string) {
    ';' !in line && IsTidyLine(line)
  }

  /** Cleaning a line introduces no character that was not in its cut. */
  lemma CleanLineChars(cut: Cut, line: string, c: char)
    requires c in CleanLine(cut, line)
    ensures c in Cutter(cut)(line) && c in line
  {
    TightenEqualsChars(Cutter(cut)(line), c);
    CutChars(cut, line, c);
  }

  /** A kept line does not become blank: tightening keeps a `=`, or changes nothing. */
  lemma CleanLineNotBlank(cut: Cut, line: string)
    requires Kept(cut, line)
    ensures !IsBlank(CleanLine(cut, line))
  {
    var s := Cutter(cut)(line);
    var r := TightenEquals(s);
    assert r == CleanLine(cut, line);
    TightenEqualsMeaning(s);
    if '=' in s {
      NotBlankAt(r, FirstIndex(r, '='));
    } else {
      assert r == s;
    }
  }

  lemma NotBlankAt(line: string, i: nat)
    requires i < |line| && line[i] == '='
    ensures !IsBlank(line)
  {
  }

  /** Each kept line becomes a tidy line that holds no character it did not have; with the
      corrected cut it also holds no `;`. */
  lemma CleanLineIsClean(cut: Cut, line: string)
    requires Kept(cut, line)
    ensures IsTidyLine(CleanLine(cut, line))
    ensures cut == Corrected ==> ';' !in CleanLine(cut, line)
    ensures forall c :: c in CleanLine(cut, line) ==> c in line
  {
    TightenEqualsMeaning(Cutter(cut)(line));
    forall c | c in CleanLine(cut, line) ensures c in line {
      CleanLineChars(cut, line, c);
    }
    if ';' in CleanLine(cut, line) {
      CleanLineChars(cut, line, ';');
    }
    CleanLineNotBlank(cut, line);
    CutKeepsNonComment(cut, line);
    TightenKeepsNonComment(Cutter(cut)(line));
  }

  /** A clean line passes through the line-by-line pipeline unchanged, with either cut. */
  lemma CleanLineFixed(cut: Cut, line: string)
    requires IsCleanLine(line)
    ensures Kept(cut, line) && CleanLine(cut, line) == line
  {
    CutWithoutSemicolon(cut, line);
    TightLineFixed(line);
  }

  /** Tightening a line that is already tight changes nothing. */
  lemma TightLineFixed(line: string)
    requires TightAroundFirstEquals(line)
    ensures TightenEquals(line) == line
  {
    if '=' in line {
      TightAt(line, FirstIndex(line, '='));
    }
  }

  /** Cutting a line at a `=` with no blank beside it and tightening the two parts changes
      nothing. */
  lemma TightAt(line: string, e: nat)
    requires e < |line| && line[e] == '='
    requires e > 0 ==> !IsSpaceOrTab(line[e - 1])
    requires e + 1 < |line| ==> !IsSpaceOrTab(line[e + 1])
    ensures DropTrailingBlanks(line[..e]) + "=" + DropLeadingBlanks(line[e + 1..]) == line
  {
    var before, after := line[..e], line[e + 1..];
    assert |before| > 0 ==> before[|before| - 1] == line[e - 1];
    DropTrailingBlanksFixed(before);
    assert |after| > 0 ==> after[0] == line[e + 1];
    DropLeadingBlanksFixed(after);
    assert line == before + "=" + after;
  }

  lemma DropTrailingBlanksFixed(s: string)
    requires |s| > 0 ==> !IsSpaceOrTab(s[|s| - 1])
    ensures DropTrailingBlanks(s) == s
  {
  }

  lemma DropLeadingBlanksFixed(s: string)
    requires |s| > 0 ==> !IsSpaceOrTab(s[0])
    ensures DropLeadingBlanks(s) == s
  {
  }

  /** Cleaning a sequence of clean lines changes nothing. */
  lemma {:induction false} CleanLinesFixed(cut: Cut, lines: seq<string>)
    requires forall i :: 0 <= i < |lines| ==> IsCleanLine(lines[i])
    ensures CleanLines(cut, lines) == lines
  {
    if lines != [] {
      CleanLineFixed(cut, lines[0]);
      assert Emit(cut, lines[0]) == [lines[0]];
      CleanLinesFixed(cut, lines[1..]);
      assert CleanLines(cut, lines) == [lines[0]] + lines[1..];
    }
  }

  /** What one line contributes is tidy, free of `\n` when the line is, and free of `;` with the
      corrected cut. */
  lemma EmitIsClean(cut: Cut, line: string)
    requires LF !in line
    ensures forall x :: x in Emit(cut, line) ==>
      IsTidyLine(x) && LF !in x && (cut == Corrected ==> ';' !in x)
  {
    if Kept(cut, line) {
      CleanLineIsClean(cut, line);
      assert LF !in CleanLine(cut, line);
      assert Emit(cut, line) == [CleanLine(cut, line)];
    } else {
      assert Emit(cut, line) == [];
    }
  }

  /** Every output line of the line-by-line pipeline is tidy, free of `\n` when its input is, and
      free of `;` with the corrected cut. */
  lemma {:induction false} CleanLinesAreClean(cut: Cut, lines: seq<string>)
    requires forall i :: 0 <= i < |lines| ==> LF !in lines[i]
    ensures forall x :: x in CleanLines(cut, lines) ==>
      IsTidyLine(x) && LF !in x && (cut == Corrected ==> ';' !in x)
  {
    if lines != [] {
      CleanLinesAreClean(cut, lines[1..]);
      EmitIsClean(cut, lines[0]);
    }
  }

  // ---------------------------------------------------------------------------------------------
  // Properties of the cleaned text

  /** No output line is a comment line, is blank, contains `\n` or has a blank beside its first `=`;
      with the corrected cut no output line contains `;`. */
  lemma OutputLinesAreClean(cut: Cut, text: string)
    ensures forall i :: 0 <= i < |CleanIniLines(cut, text)| ==>
      IsTidyLine(CleanIniLines(cut, text)[i]) && LF !in CleanIniLines(cut, text)[i]
    ensures cut == Corrected ==>
      forall i :: 0 <= i < |CleanIniLines(cut, text)| ==> ';' !in CleanIniLines(cut, text)[i]
  {
    var out := CleanIniLines(cut, text);
    var byLine := CleanLines(cut, SplitLines(text));
    CleanIniLinesByLine(cut, text);
    CleanLinesAreClean(cut, SplitLines(text));
    forall i | 0 <= i < |out|
      ensures IsTidyLine(out[i]) && LF !in out[i] && (cut == Corrected ==> ';' !in out[i])
    {
      assert out[i] in byLine;
    }
  }

  /** A comment line never appears among the output lines. */
  lemma CommentLineNeverInOutput(cut: Cut, text: string, line: string)
    requires IsCommentLine(line)
    ensures line !in CleanIniLines(cut, text)
  {
    OutputLinesAreClean(cut, text);
  }

  /** The cleaned text has no more lines than the source text. */
  lemma OutputNoLongerThanInput(cut: Cut, text: string)
    ensures |CleanIniLines(cut, text)| <= |SplitLines(text)|
  {
    CleanIniLinesByLine(cut, text);
    CleanLinesLength(cut, SplitLines(text));
  }

  /** A non-blank line without `;`, `=` and `\n` is its own cleaned text, with either cut. */
  lemma PlainLinePassesThrough(cut: Cut, line: string)
    requires !IsBlank(line) && ';' !in line && '=' !in line && LF !in line
    ensures Kept(cut, line) && CleanLine(cut, line) == line
    ensures CleanText(cut, line) == line
  {
    if IsCommentLine(line) {
      CommentLineHasSemicolon(line);
    }
    CleanLineFixed(cut, line);
    CleanIniLinesByLine(cut, line);
    CleanLinesSingle(cut, line);
  }

  /** Cleaning with the corrected cut is idempotent. */
  lemma CleanIniIdempotent(text: string)
    ensures CleanIni(CleanIni(text)) == CleanIni(text)
  {
    var out := CleanIniLines(Corrected, text);
    OutputLinesAreClean(Corrected, text);
    if out == [] {
      assert CleanIni(text) == "";
      CleanIniLinesByLine(Corrected, "");
      CleanLinesSingle(Corrected, "");
    } else {
      SplitJoin(out);
      CleanIniLinesByLine(Corrected, CleanIni(text));
      CleanLinesFixed(Corrected, out);
    }
  }

  // ---------------------------------------------------------------------------------------------
  // The comment cut as written

  /** The match of `.*` ends at the first line terminator, or at the end of the text. */
  lemma {:induction false} LengthToTerminatorIs(s: string, n: nat)
    requires n <= |s|
    requires forall i :: 0 <= i < n ==> !IsLineTerminator(s[i])
    requires n < |s| ==> IsLineTerminator(s[n])
    ensures LengthToTerminator(s) == n
  {
    if n > 0 {
      LengthToTerminatorIs(s[1..], n - 1);
    }
  }

  /** A line of an LF or CRLF file: no line terminator, except a carriage return at its end. */
  predicate IsCrlfLine(line: string) {
    forall i :: 0 <= i < |line| ==> !IsLineTerminator(line[i]) || (line[i] == CR && i == |line| - 1)
  }

  /** An LF or CRLF text: every `\r` ends a line, and there is no U+2028 or U+2029. */
  predicate IsCrlfText(text: string) {
    forall i :: 0 <= i < |text| ==>
      text[i] == LF || !IsLineTerminator(text[i]) || (text[i] == CR && (i + 1 == |text| || text[i + 1] == LF))
  }

  /** Every piece of the split of an LF or CRLF text is a line of such a file. */
  lemma {:induction false} CrlfPieces(text: string)
    requires IsCrlfText(text)
    ensures forall j :: 0 <= j < |SplitLines(text)| ==> IsCrlfLine(SplitLines(text)[j])
    decreases |text|
  {
    if LF in text {
      var k := FirstIndex(text, LF);
      var first, rest := text[..k], text[k + 1..];
      forall i | 0 <= i < k ensures !IsLineTerminator(first[i]) || (first[i] == CR && i == k - 1) {
        assert first[i] == text[i];
        assert i + 1 < k ==> text[i + 1] != LF;
      }
      forall i | 0 <= i < |rest|
        ensures rest[i] == LF || !IsLineTerminator(rest[i]) || (rest[i] == CR && (i + 1 == |rest| || rest[i + 1] == LF))
      {
        var t := k + 1 + i;
        assert text[t] == LF || !IsLineTerminator(text[t]) || (text[t] == CR && (t + 1 == |text| || text[t + 1] == LF));
        assert rest[i] == text[t];
        assert i + 1 < |rest| ==> rest[i + 1] == text[t + 1];
      }
      CrlfPieces(rest);
      assert SplitLines(text) == [first] + SplitLines(rest);
      forall j | 0 <= j < |SplitLines(text)| ensures IsCrlfLine(SplitLines(text)[j]) {
        if j > 0 {
          assert SplitLines(text)[j] == SplitLines(rest)[j - 1];
        }
      }
    } else {
      assert SplitLines(text) == [text];
      forall i | 0 <= i < |text| ensures !IsLineTerminator(text[i]) || (text[i] == CR && i == |text| - 1) {
        assert text[i] in text;
        assert i + 1 < |text| ==> text[i + 1] in text;
      }
    }
  }

  /** On a line of an LF or CRLF file the two comment cuts agree. */
  lemma CutAgrees(line: string)
    requires IsCrlfLine(line)
    ensures StripCommentAsWritten(line) == StripComment(line)
  {
    if ';' in line {
      var k := FirstIndex(line, ';');
      CommentRunsToLineEnd(line, k);
      if EndsWithCR(line) {
        assert line[|line| - 1..] == [CR];
      } else {
        assert line[|line|..] == [];
      }
    }
  }

  /** After a `;` of a line of an LF or CRLF file, `.*` runs to the end of the line, stopping only
      before its final `\r`. */
  lemma CommentRunsToLineEnd(line: string, k: nat)
    requires IsCrlfLine(line) && k < |line| && line[k] == ';'
    ensures LengthToTerminator(line[k..]) == |line| - k - (if EndsWithCR(line) then 1 else 0)
  {
    var s := line[k..];
    var n := |line| - k - (if EndsWithCR(line) then 1 else 0);
    forall i | 0 <= i < n ensures !IsLineTerminator(s[i]) {
      assert s[i] == line[k + i];
    }
    assert n < |s| ==> s[n] == CR;
    LengthToTerminatorIs(s, n);
  }

  /** On LF and CRLF text without U+2028 and U+2029 the JavaScript pipeline is the corrected one. */
  lemma AsWrittenAgreesOnCrlfText(text: string)
    requires IsCrlfText(text)
    ensures CleanIniAsWritten(text) == CleanIni(text)
  {
    var lines := SplitLines(text);
    CrlfPieces(text);
    var kept := Filter(NotCommentLine, lines);
    forall i | 0 <= i < |kept| ensures StripCommentAsWritten(kept[i]) == StripComment(kept[i]) {
      assert kept[i] in kept;
      var j :| 0 <= j < |lines| && lines[j] == kept[i];
      CutAgrees(kept[i]);
    }
    assert Map(StripCommentAsWritten, kept) == Map(StripComment, kept);
  }

  // ---------------------------------------------------------------------------------------------
  // Cleaning keeps an LF or CRLF text one, so the program is idempotent on such files

  /** No character of the text is a line terminator. */
  predicate HasNoTerminator(s: string) {
    forall i :: 0 <= i < |s| ==> !IsLineTerminator(s[i])
  }

  /** Dropping a prefix of a line of an LF or CRLF file leaves such a line. */
  lemma CrlfSuffix(line: string, n: nat)
    requires IsCrlfLine(line) && n <= |line|
    ensures IsCrlfLine(line[n..])
  {
    forall i | 0 <= i < |line| - n
      ensures !IsLineTerminator(line[n..][i]) || (line[n..][i] == CR && i == |line| - n - 1)
    {
      assert line[n..][i] == line[n + i];
    }
  }

  /** Text without terminators, followed by a line of an LF or CRLF file, is such a line. */
  lemma CrlfConcat(a: string, b: string)
    requires HasNoTerminator(a) && IsCrlfLine(b)
    ensures IsCrlfLine(a + b)
  {
    var r := a + b;
    forall i | 0 <= i < |r| ensures !IsLineTerminator(r[i]) || (r[i] == CR && i == |r| - 1) {
      if i < |a| {
        assert r[i] == a[i];
      } else {
        assert r[i] == b[i - |a|];
      }
    }
  }

  /** The corrected cut keeps a line of an LF or CRLF file such a line. */
  lemma StripCommentCrlf(line: string)
    requires IsCrlfLine(line)
    ensures IsCrlfLine(StripComment(line))
  {
    if ';' in line {
      var k := FirstIndex(line, ';');
      forall i | 0 <= i < k ensures !IsLineTerminator(line[..k][i]) {
        assert line[..k][i] == line[i];
      }
      var tail: string := if EndsWithCR(line) then [CR] else [];
      assert StripComment(line) == line[..k] + tail;
      CrlfConcat(line[..k], tail);
    }
  }

  /** Tightening keeps a line of an LF or CRLF file such a line. */
  lemma TightenEqualsCrlf(line: string)
    requires IsCrlfLine(line)
    ensures IsCrlfLine(TightenEquals(line))
  {
    if '=' in line {
      var e := FirstIndex(line, '=');
      var before := DropTrailingBlanks(line[..e]);
      var after := DropLeadingBlanks(line[e + 1..]);
      forall i | 0 <= i < |before| + 1 ensures !IsLineTerminator((before + "=")[i]) {
        if i < |before| {
          assert (before + "=")[i] == line[..e][i] == line[i];
        }
      }
      CrlfSuffix(line, e + 1);
      CrlfSuffix(line[e + 1..], |line[e + 1..]| - |after|);
      CrlfConcat(before + "=", after);
      assert TightenEquals(line) == (before + "=") + after;
    }
  }

  /** The corrected line-by-line cleaning of lines of an LF or CRLF file yields such lines. */
  lemma {:induction false} CleanLinesCrlf(lines: seq<string>)
    requires forall x :: x in lines ==> IsCrlfLine(x)
    ensures forall x :: x in CleanLines(Corrected, lines) ==> IsCrlfLine(x)
  {
    if lines != [] {
      assert lines[0] in lines;
      assert forall x :: x in lines[1..] ==> x in lines;
      CleanLinesCrlf(lines[1..]);
      StripCommentCrlf(lines[0]);
      TightenEqualsCrlf(StripComment(lines[0]));
      assert CleanLine(Corrected, lines[0]) == TightenEquals(StripComment(lines[0]));
    }
  }

  /** A line of an LF or CRLF file, a `\n` and an LF or CRLF text make an LF or CRLF text. */
  lemma CrlfJoinStep(line: string, rest: string)
    requires IsCrlfLine(line) && IsCrlfText(rest)
    ensures IsCrlfText(line + [LF] + rest)
  {
    var t := line + [LF] + rest;
    forall i | 0 <= i < |t|
      ensures t[i] == LF || !IsLineTerminator(t[i]) || (t[i] == CR && (i + 1 == |t| || t[i + 1] == LF))
    {
      if i < |line| {
        assert t[i] == line[i];
        assert t[|line|] == LF;
      } else if i > |line| {
        var j := i - |line| - 1;
        assert t[i] == rest[j];
        if j + 1 < |rest| {
          assert t[i + 1] == rest[j + 1];
        }
      }
    }
  }

  /** Joining lines of an LF or CRLF file with `\n` gives an LF or CRLF text. */
  lemma {:induction false} JoinCrlf(lines: seq<string>)
    requires forall x :: x in lines ==> IsCrlfLine(x)
    ensures IsCrlfText(JoinLines(lines))
  {
    if |lines| == 1 {
      assert lines[0] in lines;
    } else if |lines| > 1 {
      assert lines[0] in lines;
      assert forall x :: x in lines[1..] ==> x in lines;
      JoinCrlf(lines[1..]);
      CrlfJoinStep(lines[0], JoinLines(lines[1..]));
    }
  }

  /** The corrected compaction of an LF or CRLF text is again an LF or CRLF text. */
  lemma CleanIniKeepsCrlf(text: string)
    requires IsCrlfText(text)
    ensures IsCrlfText(CleanIni(text))
  {
    var pieces := SplitLines(text);
    CrlfPieces(text);
    assert forall x :: x in pieces ==> IsCrlfLine(x);
    CleanIniLinesByLine(Corrected, text);
    CleanLinesCrlf(pieces);
    JoinCrlf(CleanLines(Corrected, pieces));
  }

  /** On LF and CRLF files without U+2028 and U+2029, the compaction as written is idempotent. */
  lemma AsWrittenIdempotentOnCrlfText(text: string)
    requires IsCrlfText(text)
    ensures CleanIniAsWritten(CleanIniAsWritten(text)) == CleanIniAsWritten(text)
  {
    AsWrittenAgreesOnCrlfText(text);
    CleanIniKeepsCrlf(text);
    AsWrittenAgreesOnCrlfText(CleanIni(text));
    CleanIniIdempotent(text);
  }

  /** A text without `\n` that is not a comment line, and whose as-written cut is not blank and has
      no `=`, is cleaned by the JavaScript pipeline into that cut. */
  lemma AsWrittenSingleLine(line: string, cut: string)
    requires LF !in line && !IsCommentLine(line)
    requires StripCommentAsWritten(line) == cut && !IsBlank(cut) && '=' !in cut
    ensures CleanIniAsWritten(line) == cut
  {
    assert SplitLines(line) == [line];
    CleanIniLinesByLine(AsWritten, line);
    CleanLinesSingle(AsWritten, line);
    TightenEqualsMeaning(cut);
  }

  lemma CutOfFirstLine(t: string, u: string)
    requires t == "a;\r;" && u == "a\r;"
    ensures StripCommentAsWritten(t) == u
  {
    FirstIndexUnique(t, ';', 1);
    assert t[1..] == ";\r;";
    assert LengthToTerminator(t[1..]) == 1;
    assert t[..1] + t[2..] == u;
  }

  lemma CutOfSecondLine(t: string, u: string)
    requires t == "a\r;" && u == "a\r"
    ensures StripCommentAsWritten(t) == u
  {
    FirstIndexUnique(t, ';', 2);
    assert t[2..] == ";";
    assert LengthToTerminator(t[2..]) == 1;
  }

  /** A line starting with `a` is not a comment line, and a cut starting with `a` is not blank. */
  lemma FirstCharDecides(t: string, u: string)
    requires |t| > 0 && t[0] == 'a' && |u| > 0 && u[0] == 'a'
    ensures !IsCommentLine(t) && !IsBlank(u)
  {
    var m := FirstNonBlank(t);
    assert !IsSpaceOrTab(t[0]);
    assert !IsJsWhitespace(u[0]);
  }

  lemma FirstPass(t: string, u: string)
    requires t == "a;\r;" && u == "a\r;"
    ensures CleanIniAsWritten(t) == u
  {
    assert '=' !in u by { assert u[0] != '=' && u[1] != '=' && u[2] != '=' && |u| == 3; }
    assert LF !in t by { assert t[0] != LF && t[1] != LF && t[2] != LF && t[3] != LF && |t| == 4; }
    CutOfFirstLine(t, u);
    FirstCharDecides(t, u);
    AsWrittenSingleLine(t, u);
  }

  lemma SecondPass(t: string, u: string)
    requires t == "a\r;" && u == "a\r"
    ensures CleanIniAsWritten(t) == u
  {
    assert '=' !in u by { assert u[0] != '=' && u[1] != '=' && |u| == 2; }
    assert LF !in t by { assert t[0] != LF && t[1] != LF && t[2] != LF && |t| == 3; }
    CutOfSecondLine(t, u);
    FirstCharDecides(t, u);
    AsWrittenSingleLine(t, u);
  }

  /** The JavaScript cut keeps `\r;` of the line `a;\r;`: a `;` survives into the output, and cleaning
      the output again changes it. */
  lemma AsWrittenKeepsSemicolonAfterCarriageReturn(text: string)
    requires text == "a;\r;"
    ensures ';' in CleanIniAsWritten(text)
    ensures CleanIniAsWritten(CleanIniAsWritten(text)) != CleanIniAsWritten(text)
  {
    var once, twice := "a\r;", "a\r";
    FirstPass(text, once);
    SecondPass(once, twice);
    assert once[2] == ';';
    assert |twice| != |once|;
  }
}
