/**
 * IpsecManagerUtilityMethods.py: excising runs of lines from a file,
 * rendering a template, and the two address conversions. A file is the
 * sequence of its lines; the shell probe and the socket query of the same
 * source file are not part of this model.
 */
module UtilityMethods {
  import opened Wrappers
  import opened Strings

  /** `xs` is an order-preserving selection of the elements of `ys`. */
  predicate IsSubsequence<T(==)>(xs: seq<T>, ys: seq<T>)
    decreases |ys|
  {
    xs == [] || (ys != [] && ((xs[0] == ys[0] && IsSubsequence(xs[1..], ys[1..])) || IsSubsequence(xs, ys[1..])))
  }

  lemma AppendAssoc<T>(a: seq<T>, b: seq<T>, c: seq<T>)
    ensures a + b + c == a + (b + c)
  {
  }

  lemma SeqAssoc<T>(a: seq<T>, b: seq<T>, c: seq<T>, d: seq<T>, e: seq<T>)
    ensures a + b + c + d + e == a + (b + c + d + e)
  {
    assert a + b + c + d + e == a + (b + c + d) + e;
    assert a + (b + c + d) + e == a + ((b + c + d) + e);
  }

  // ---------------------------------------------------------------------
  // removeLinesFromFile
  // ---------------------------------------------------------------------

  /**
   * The scanner's flag after reading `line`: outside a run only the start
   * predicate is asked, inside a run only the continuation predicate is.
   * Both see the stripped line.
   */
  function OmitAfter(inLinesToOmit: bool, line: string, isFirstLineToOmit: string -> bool, isFirstLineToContinue: string -> bool): bool {
    if inLinesToOmit then !isFirstLineToContinue(Strip(line)) else isFirstLineToOmit(Strip(line))
  }

  /** The lines the scanner writes back when it starts in state `inLinesToOmit`. */
  function Kept(lines: seq<string>, inLinesToOmit: bool, isFirstLineToOmit: string -> bool, isFirstLineToContinue: string -> bool): seq<string>
    decreases |lines|
  {
    if lines == [] then []
    else
      var omit := OmitAfter(inLinesToOmit, lines[0], isFirstLineToOmit, isFirstLineToContinue);
      (if omit then [] else [lines[0]]) + Kept(lines[1..], omit, isFirstLineToOmit, isFirstLineToContinue)
  }

  /** The scanner's flag after the last of `lines`. */
  function EndState(lines: seq<string>, inLinesToOmit: bool, isFirstLineToOmit: string -> bool, isFirstLineToContinue: string -> bool): bool
    decreases |lines|
  {
    if lines == [] then inLinesToOmit
    else EndState(lines[1..], OmitAfter(inLinesToOmit, lines[0], isFirstLineToOmit, isFirstLineToContinue), isFirstLineToOmit, isFirstLineToContinue)
  }

  /**
   * `removeLinesFromFile`: a two-state scan that writes every line read
   * while the flag is down, byte for byte.
   */
  method RemoveLinesFromFile(lines: seq<string>, isFirstLineToOmit: string -> bool, isFirstLineToContinue: string -> bool)
    returns (outFile: seq<string>)
    ensures outFile == Kept(lines, false, isFirstLineToOmit, isFirstLineToContinue)
  {
    outFile := [];
    var inLinesToOmit := false;
    for i := 0 to |lines|
      invariant outFile + Kept(lines[i..], inLinesToOmit, isFirstLineToOmit, isFirstLineToContinue)
             == Kept(lines, false, isFirstLineToOmit, isFirstLineToContinue)
    {
      var line := lines[i];
      KeptStep(lines, i, inLinesToOmit, isFirstLineToOmit, isFirstLineToContinue);
      ghost var next := OmitAfter(inLinesToOmit, line, isFirstLineToOmit, isFirstLineToContinue);
      ghost var written := if next then [] else [line];
      ghost var before := outFile;
      if inLinesToOmit {
        inLinesToOmit := !isFirstLineToContinue(Strip(line));
      } else {
        inLinesToOmit := isFirstLineToOmit(Strip(line));
      }
      assert inLinesToOmit == next;
      if !inLinesToOmit {
        outFile := outFile + [line];
      }
      assert outFile == before + written;
      AppendAssoc(before, written, Kept(lines[i + 1..], next, isFirstLineToOmit, isFirstLineToContinue));
    }
    assert lines[|lines|..] == [];
  }

  lemma KeptStep(lines: seq<string>, i: nat, inLinesToOmit: bool, isFirstLineToOmit: string -> bool, isFirstLineToContinue: string -> bool)
    requires i < |lines|
    ensures Kept(lines[i..], inLinesToOmit, isFirstLineToOmit, isFirstLineToContinue)
         == (if OmitAfter(inLinesToOmit, lines[i], isFirstLineToOmit, isFirstLineToContinue) then [] else [lines[i]])
          + Kept(lines[i + 1..], OmitAfter(inLinesToOmit, lines[i], isFirstLineToOmit, isFirstLineToContinue), isFirstLineToOmit, isFirstLineToContinue)
  {
    assert lines[i..][0] == lines[i];
    assert lines[i..][1..] == lines[i + 1..];
  }

  /** The lines written back are lines of the input, unchanged and in their original order. */
  lemma {:induction false} KeptIsSubsequence(lines: seq<string>, inLinesToOmit: bool, isFirstLineToOmit: string -> bool, isFirstLineToContinue: string -> bool)
    ensures IsSubsequence(Kept(lines, inLinesToOmit, isFirstLineToOmit, isFirstLineToContinue), lines)
    decreases |lines|
  {
    if lines != [] {
      var omit := OmitAfter(inLinesToOmit, lines[0], isFirstLineToOmit, isFirstLineToContinue);
      var tail := Kept(lines[1..], omit, isFirstLineToOmit, isFirstLineToContinue);
      KeptIsSubsequence(lines[1..], omit, isFirstLineToOmit, isFirstLineToContinue);
      if !omit {
        var xs := [lines[0]] + tail;
        assert xs[0] == lines[0] && xs[1..] == tail;
        assert IsSubsequence(xs, lines);
      } else {
        assert Kept(lines, inLinesToOmit, isFirstLineToOmit, isFirstLineToContinue) == tail;
        assert tail == [] || IsSubsequence(tail, lines[1..]);
      }
    }
  }

  /** When no stripped line satisfies the start predicate, the file is written back unchanged. */
  lemma {:induction false} NoStartKeepsEverything(lines: seq<string>, isFirstLineToOmit: string -> bool, isFirstLineToContinue: string -> bool)
    requires forall k :: 0 <= k < |lines| ==> !isFirstLineToOmit(Strip(lines[k]))
    ensures Kept(lines, false, isFirstLineToOmit, isFirstLineToContinue) == lines
    decreases |lines|
  {
    if lines != [] {
      NoStartKeepsEverything(lines[1..], isFirstLineToOmit, isFirstLineToContinue);
      assert lines == [lines[0]] + lines[1..];
    }
  }

  /** Scanning two pieces of a file is scanning the first, then the second from the state the first left. */
  lemma {:induction false} KeptOfAppend(a: seq<string>, b: seq<string>, inLinesToOmit: bool, isFirstLineToOmit: string -> bool, isFirstLineToContinue: string -> bool)
    ensures Kept(a + b, inLinesToOmit, isFirstLineToOmit, isFirstLineToContinue)
         == Kept(a, inLinesToOmit, isFirstLineToOmit, isFirstLineToContinue)
          + Kept(b, EndState(a, inLinesToOmit, isFirstLineToOmit, isFirstLineToContinue), isFirstLineToOmit, isFirstLineToContinue)
    decreases |a|
  {
    if a == [] {
      assert a + b == b;
    } else {
      assert (a + b)[0] == a[0];
      assert (a + b)[1..] == a[1..] + b;
      var omit := OmitAfter(inLinesToOmit, a[0], isFirstLineToOmit, isFirstLineToContinue);
      KeptOfAppend(a[1..], b, omit, isFirstLineToOmit, isFirstLineToContinue);
    }
  }

  /** Inside a run, lines that do not satisfy the continuation predicate are all dropped and the run goes on. */
  lemma {:induction false} RunBodyDropped(body: seq<string>, isFirstLineToOmit: string -> bool, isFirstLineToContinue: string -> bool)
    requires forall k :: 0 <= k < |body| ==> !isFirstLineToContinue(Strip(body[k]))
    ensures Kept(body, true, isFirstLineToOmit, isFirstLineToContinue) == []
    ensures EndState(body, true, isFirstLineToOmit, isFirstLineToContinue)
    decreases |body|
  {
    if body != [] {
      RunBodyDropped(body[1..], isFirstLineToOmit, isFirstLineToContinue);
    }
  }

  /**
   * A run starts at a line satisfying the start predicate and ends just
   * before the first later line satisfying the continuation predicate; that
   * line is kept, without being tested against the start predicate, and
   * the scan goes on as from a fresh start, so later runs are dropped too.
   */
  lemma DropsOneRun(prefix: seq<string>, first: string, body: seq<string>, terminator: string, rest: seq<string>,
                    isFirstLineToOmit: string -> bool, isFirstLineToContinue: string -> bool)
    requires !EndState(prefix, false, isFirstLineToOmit, isFirstLineToContinue)
    requires isFirstLineToOmit(Strip(first))
    requires forall k :: 0 <= k < |body| ==> !isFirstLineToContinue(Strip(body[k]))
    requires isFirstLineToContinue(Strip(terminator))
    ensures Kept(prefix + [first] + body + [terminator] + rest, false, isFirstLineToOmit, isFirstLineToContinue)
         == Kept(prefix, false, isFirstLineToOmit, isFirstLineToContinue) + [terminator]
          + Kept(rest, false, isFirstLineToOmit, isFirstLineToContinue)
  {
    var run := [first] + body + [terminator] + rest;
    assert prefix + [first] + body + [terminator] + rest == prefix + run by {
      SeqAssoc(prefix, [first], body, [terminator], rest);
    }
    KeptOfAppend(prefix, run, false, isFirstLineToOmit, isFirstLineToContinue);
    RunDropped(first, body, terminator, rest, isFirstLineToOmit, isFirstLineToContinue);
  }

  lemma RunDropped(first: string, body: seq<string>, terminator: string, rest: seq<string>,
                   isFirstLineToOmit: string -> bool, isFirstLineToContinue: string -> bool)
    requires isFirstLineToOmit(Strip(first))
    requires forall k :: 0 <= k < |body| ==> !isFirstLineToContinue(Strip(body[k]))
    requires isFirstLineToContinue(Strip(terminator))
    ensures Kept([first] + body + [terminator] + rest, false, isFirstLineToOmit, isFirstLineToContinue)
         == [terminator] + Kept(rest, false, isFirstLineToOmit, isFirstLineToContinue)
  {
    var run := [first] + body + [terminator] + rest;
    var after := body + ([terminator] + rest);
    assert run[0] == first;
    assert run[1..] == after;
    assert Kept(run, false, isFirstLineToOmit, isFirstLineToContinue) == Kept(after, true, isFirstLineToOmit, isFirstLineToContinue);
    RunBodyDropped(body, isFirstLineToOmit, isFirstLineToContinue);
    KeptOfAppend(body, [terminator] + rest, true, isFirstLineToOmit, isFirstLineToContinue);
    assert ([terminator] + rest)[0] == terminator;
    assert ([terminator] + rest)[1..] == rest;
  }

  /** A run that no line ends drops everything up to the end of the file. */
  lemma DropsToEndOfFile(prefix: seq<string>, first: string, body: seq<string>,
                         isFirstLineToOmit: string -> bool, isFirstLineToContinue: string -> bool)
    requires !EndState(prefix, false, isFirstLineToOmit, isFirstLineToContinue)
    requires isFirstLineToOmit(Strip(first))
    requires forall k :: 0 <= k < |body| ==> !isFirstLineToContinue(Strip(body[k]))
    ensures Kept(prefix + [first] + body, false, isFirstLineToOmit, isFirstLineToContinue)
         == Kept(prefix, false, isFirstLineToOmit, isFirstLineToContinue)
  {
    assert prefix + [first] + body == prefix + ([first] + body);
    KeptOfAppend(prefix, [first] + body, false, isFirstLineToOmit, isFirstLineToContinue);
    assert ([first] + body)[1..] == body;
    RunBodyDropped(body, isFirstLineToOmit, isFirstLineToContinue);
  }

  /**
   * When a line can never both start a run and continue after one, no line
   * that is written back satisfies the start predicate.
   */
  lemma {:induction false} KeptLinesDoNotStartRuns(lines: seq<string>, inLinesToOmit: bool, isFirstLineToOmit: string -> bool, isFirstLineToContinue: string -> bool)
    requires forall k :: 0 <= k < |lines| ==> !(isFirstLineToOmit(Strip(lines[k])) && isFirstLineToContinue(Strip(lines[k])))
    ensures forall k :: 0 <= k < |Kept(lines, inLinesToOmit, isFirstLineToOmit, isFirstLineToContinue)| ==>
              !isFirstLineToOmit(Strip(Kept(lines, inLinesToOmit, isFirstLineToOmit, isFirstLineToContinue)[k]))
    decreases |lines|
  {
    if lines != [] {
      var omit := OmitAfter(inLinesToOmit, lines[0], isFirstLineToOmit, isFirstLineToContinue);
      KeptLinesDoNotStartRuns(lines[1..], omit, isFirstLineToOmit, isFirstLineToContinue);
    }
  }

  /** The lines whose stripped text does not satisfy `marked`, in order. */
  function Unmarked(lines: seq<string>, marked: string -> bool): seq<string> {
    if lines == [] then []
    else (if marked(Strip(lines[0])) then [] else [lines[0]]) + Unmarked(lines[1..], marked)
  }

  /**
   * With a continuation predicate that is the negation of the start
   * predicate (how the secrets file is cleaned), exactly the lines that
   * satisfy the start predicate are dropped, whatever the state.
   */
  lemma {:induction false} ComplementaryPredicatesDropMarkedLines(lines: seq<string>, inLinesToOmit: bool, marked: string -> bool, unmarked: string -> bool)
    requires forall k :: 0 <= k < |lines| ==> unmarked(Strip(lines[k])) == !marked(Strip(lines[k]))
    ensures Kept(lines, inLinesToOmit, marked, unmarked) == Unmarked(lines, marked)
    decreases |lines|
  {
    if lines != [] {
      var omit := OmitAfter(inLinesToOmit, lines[0], marked, unmarked);
      ComplementaryPredicatesDropMarkedLines(lines[1..], omit, marked, unmarked);
    }
  }

  // ---------------------------------------------------------------------
  // writeToFileFromTemplate
  // ---------------------------------------------------------------------

  /** `value` before every character of `s` and at its end: Python's `s.replace('', value)`. */
  function InsertAround(s: string, value: string): string {
    if s == [] then value else value + [s[0]] + InsertAround(s[1..], value)
  }

  /** Python's `s.replace(key, value)`: occurrences replaced left to right, without overlap. */
  function ReplaceAll(s: string, key: string, value: string): string
    decreases |s|
  {
    if key == [] then InsertAround(s, value)
    else if StartsWith(s, key) then value + ReplaceAll(s[|key|..], key, value)
    else if s == [] then []
    else [s[0]] + ReplaceAll(s[1..], key, value)
  }

  /** One template line after every replacement, applied in the dictionary's iteration order. */
  function RenderLine(line: string, replacements: seq<(string, string)>): string
    decreases |replacements|
  {
    if replacements == [] then line
    else RenderLine(ReplaceAll(line, replacements[0].0, replacements[0].1), replacements[1..])
  }

  /** The lines a template renders to: each template line with every replacement applied. */
  function RenderedTemplate(template: seq<string>, replacements: seq<(string, string)>): (r: seq<string>)
    ensures |r| == |template| && forall i :: 0 <= i < |r| ==> r[i] == RenderLine(template[i], replacements)
  {
    seq(|template|, i requires 0 <= i < |template| => RenderLine(template[i], replacements))
  }

  /**
   * `writeToFileFromTemplate`: the lines to write, one per template line.
   * The replacement dictionary is given as its sequence of (key, value)
   * pairs in iteration order.
   */
  method WriteToFileFromTemplate(template: seq<string>, replacementDictionary: seq<(string, string)>)
    returns (written: seq<string>)
    ensures |written| == |template|
    ensures forall i :: 0 <= i < |template| ==> written[i] == RenderLine(template[i], replacementDictionary)
    ensures written == RenderedTemplate(template, replacementDictionary)
  {
    written := [];
    for i := 0 to |template|
      invariant |written| == i
      invariant forall j :: 0 <= j < i ==> written[j] == RenderLine(template[j], replacementDictionary)
    {
      var line := template[i];
      for k := 0 to |replacementDictionary|
        invariant RenderLine(line, replacementDictionary[k..]) == RenderLine(template[i], replacementDictionary)
      {
        assert replacementDictionary[k..][1..] == replacementDictionary[k + 1..];
        line := ReplaceAll(line, replacementDictionary[k].0, replacementDictionary[k].1);
      }
      written := written + [line];
    }
  }

  /** With an empty dictionary the template is copied unchanged. */
  lemma EmptyDictionaryCopiesTemplate(template: seq<string>)
    ensures RenderedTemplate(template, []) == template
  {
  }

  /**
   * The lines `readlines()` later returns for a file written as `written`,
   * each piece followed by its line break: a piece that holds a line break
   * of its own reads back as several lines.
   */
  function ReadBack(written: seq<string>): (r: seq<string>)
    ensures |r| >= |written|
  {
    if written == [] then [] else Split(written[0], '\n') + ReadBack(written[1..])
  }

  /** Pieces without a line break read back as exactly the pieces written. */
  lemma {:induction false} ReadBackOfSingleLines(written: seq<string>)
    requires forall i :: 0 <= i < |written| ==> '\n' !in written[i]
    ensures ReadBack(written) == written
  {
    if written != [] {
      SplitWithoutSeparator(written[0], '\n');
      ReadBackOfSingleLines(written[1..]);
    }
  }

  /** A piece holding a line break makes the file read back with more lines than were written. */
  lemma {:induction false} ReadBackAddsLines(written: seq<string>, i: nat, j: nat)
    requires i < |written| && j < |written[i]| && written[i][j] == '\n'
    ensures |ReadBack(written)| > |written|
  {
    if i == 0 {
      SplitHasTwoFields(written[0], '\n', j);
    } else {
      ReadBackAddsLines(written[1..], i - 1, j);
    }
  }

  /**
   * When neither the template's lines nor any replacement value hold a line
   * break, the rendered template reads back line for line.
   */
  lemma RenderedTemplateReadsBack(template: seq<string>, replacements: seq<(string, string)>)
    requires forall i :: 0 <= i < |template| ==> '\n' !in template[i]
    requires forall k :: 0 <= k < |replacements| ==> '\n' !in replacements[k].1
    ensures ReadBack(RenderedTemplate(template, replacements)) == RenderedTemplate(template, replacements)
  {
    var rendered := RenderedTemplate(template, replacements);
    forall i | 0 <= i < |rendered| ensures '\n' !in rendered[i] {
      RenderLineKeepsOneLine(template[i], replacements);
    }
    ReadBackOfSingleLines(rendered);
  }

  lemma {:induction false} InsertAroundKeepsOneLine(s: string, value: string)
    requires '\n' !in s && '\n' !in value
    ensures '\n' !in InsertAround(s, value)
    decreases |s|
  {
    if s != [] {
      InsertAroundKeepsOneLine(s[1..], value);
    }
  }

  /** A replacement without a line break cannot add one. */
  lemma {:induction false} ReplaceAllKeepsOneLine(s: string, key: string, value: string)
    requires '\n' !in s && '\n' !in value
    ensures '\n' !in ReplaceAll(s, key, value)
    decreases |s|
  {
    if key == [] {
      InsertAroundKeepsOneLine(s, value);
    } else if StartsWith(s, key) {
      assert '\n' !in s[|key|..];
      ReplaceAllKeepsOneLine(s[|key|..], key, value);
    } else if s != [] {
      assert '\n' !in s[1..];
      ReplaceAllKeepsOneLine(s[1..], key, value);
    }
  }

  /**
   * When neither a template line nor any replacement value holds a line
   * break, each template line becomes exactly one line of the output file.
   */
  lemma {:induction false} RenderLineKeepsOneLine(line: string, replacements: seq<(string, string)>)
    requires '\n' !in line
    requires forall k :: 0 <= k < |replacements| ==> '\n' !in replacements[k].1
    ensures '\n' !in RenderLine(line, replacements)
    decreases |replacements|
  {
    if replacements != [] {
      ReplaceAllKeepsOneLine(line, replacements[0].0, replacements[0].1);
      RenderLineKeepsOneLine(ReplaceAll(line, replacements[0].0, replacements[0].1), replacements[1..]);
    }
  }

  /** A non-empty key that does not occur leaves the text as it was. */
  lemma {:induction false} ReplaceAbsentKey(s: string, key: string, value: string)
    requires key != [] && !Contains(s, key)
    ensures ReplaceAll(s, key, value) == s
    decreases |s|
  {
    if s != [] {
      ReplaceAbsentKey(s[1..], key, value);
      assert s == [s[0]] + s[1..];
    }
  }

  // ---------------------------------------------------------------------
  // convertIpToHex and stripMacAddress
  // ---------------------------------------------------------------------

  predicate IsLowerHexDigit(c: char) {
    ('0' <= c <= '9') || ('a' <= c <= 'f')
  }

  function HexDigit(d: nat): (c: char)
    requires d < 16
    ensures IsLowerHexDigit(c)
  {
    if d < 10 then ('0' as int + d) as char else ('a' as int + d - 10) as char
  }

  function HexDigitValue(c: char): nat
    requires IsLowerHexDigit(c)
  {
    if c <= '9' then c as int - '0' as int else c as int - 'a' as int + 10
  }

  /** Python's `format(n, 'x')`. */
  function HexDigits(n: nat): string
    decreases n
  {
    if n < 16 then [HexDigit(n)] else HexDigits(n / 16) + [HexDigit(n % 16)]
  }

  /** Python's `format(n, '02x')`: lower-case hexadecimal, padded with zeros to two digits. */
  function Format02x(n: nat): string {
    if n < 16 then ['0', HexDigit(n)] else HexDigits(n)
  }

  /** A value up to 255 becomes exactly two hex digits that read back as the value. */
  lemma Format02xOfOctet(n: nat)
    requires n <= 255
    ensures |Format02x(n)| == 2
    ensures IsLowerHexDigit(Format02x(n)[0]) && IsLowerHexDigit(Format02x(n)[1])
    ensures HexDigitValue(Format02x(n)[0]) * 16 + HexDigitValue(Format02x(n)[1]) == n
  {
    if n >= 16 {
      assert HexDigits(n / 16) == [HexDigit(n / 16)];
    }
  }

  predicate AllFieldsAreDigits(fields: seq<string>) {
    forall k :: 0 <= k < |fields| ==> IsDigits(fields[k])
  }

  /** The hex text of every field, or `None` when some field is not a digit run (`int()` raises). */
  function FieldsToHex(fields: seq<string>): (r: Option<string>)
    ensures r.Some? <==> AllFieldsAreDigits(fields)
  {
    if fields == [] then Some("")
    else if !IsDigits(fields[0]) then None
    else
      var tail := FieldsToHex(fields[1..]);
      assert forall k :: 1 <= k < |fields| ==> fields[k] == fields[1..][k - 1];
      match tail
      case None => None
      case Some(rest) => Some(Format02x(DigitsValue(fields[0])) + rest)
  }

  /**
   * `convertIpToHex`: the fields between the dots, each as `'%02x'`,
   * concatenated in order; `int()` raises, and the conversion fails,
   * exactly when some field is not a digit run.
   */
  function ConvertIpToHex(ip: string): (hex: Option<string>)
    ensures hex.Some? <==> AllFieldsAreDigits(Split(ip, '.'))
  {
    FieldsToHex(Split(ip, '.'))
  }

  /** The value of the two hex digits at `2 * k` and `2 * k + 1`. */
  function HexPairValue(h: string, k: nat): nat
    requires 2 * k + 1 < |h|
    requires IsLowerHexDigit(h[2 * k]) && IsLowerHexDigit(h[2 * k + 1])
  {
    HexDigitValue(h[2 * k]) * 16 + HexDigitValue(h[2 * k + 1])
  }

  /** Behind a two-digit head, the pairs of `rest` keep their values, one position further on. */
  lemma HexPairAfterHead(head: string, rest: string, k: nat)
    requires |head| == 2 && 1 <= k && 2 * k + 1 < |head| + |rest|
    requires forall i :: 0 <= i < |rest| ==> IsLowerHexDigit(rest[i])
    ensures IsLowerHexDigit((head + rest)[2 * k]) && IsLowerHexDigit((head + rest)[2 * k + 1])
    ensures HexPairValue(head + rest, k) == HexPairValue(rest, k - 1)
  {
    assert (head + rest)[2 * k] == rest[2 * (k - 1)];
    assert (head + rest)[2 * k + 1] == rest[2 * (k - 1) + 1];
  }

  lemma {:induction false} FieldsToHexOfOctets(fields: seq<string>)
    requires forall k :: 0 <= k < |fields| ==> IsDigits(fields[k]) && DigitsValue(fields[k]) <= 255
    ensures FieldsToHex(fields).Some?
    ensures |FieldsToHex(fields).value| == 2 * |fields|
    ensures forall i :: 0 <= i < |FieldsToHex(fields).value| ==> IsLowerHexDigit(FieldsToHex(fields).value[i])
    ensures forall k :: 0 <= k < |fields| ==> AllDigits(fields[k]) && HexPairValue(FieldsToHex(fields).value, k) == DigitsValue(fields[k])
    decreases |fields|
  {
    if fields != [] {
      var tail := fields[1..];
      assert forall k :: 0 <= k < |tail| ==> tail[k] == fields[k + 1];
      FieldsToHexOfOctets(tail);
      Format02xOfOctet(DigitsValue(fields[0]));
      var head := Format02x(DigitsValue(fields[0]));
      var rest := FieldsToHex(tail).value;
      var h := head + rest;
      assert FieldsToHex(fields) == Some(h);
      forall i | 0 <= i < |h|
        ensures IsLowerHexDigit(h[i])
      {
        if i >= 2 {
          assert h[i] == rest[i - 2];
        }
      }
      forall k | 0 <= k < |fields|
        ensures AllDigits(fields[k]) && HexPairValue(h, k) == DigitsValue(fields[k])
      {
        if k == 0 {
          assert h[0] == head[0] && h[1] == head[1];
        } else {
          HexPairAfterHead(head, rest, k);
          assert tail[k - 1] == fields[k];
        }
      }
    }
  }

  /**
   * A valid IPv4 address becomes eight lower-case hex digits; each pair of
   * digits reads back as the value of the field in the same position.
   */
  lemma ConvertIpv4ToHex(ip: string)
    requires IsIpv4(ip)
    ensures ConvertIpToHex(ip).Some?
    ensures |ConvertIpToHex(ip).value| == 8
    ensures forall i :: 0 <= i < 8 ==> IsLowerHexDigit(ConvertIpToHex(ip).value[i])
    ensures forall k :: 0 <= k < 4 ==> HexPairValue(ConvertIpToHex(ip).value, k) == DigitsValue(Split(ip, '.')[k])
  {
    FieldsToHexOfOctets(Split(ip, '.'));
  }

  /** `s` without any occurrence of `c`, the other characters in order. */
  function RemoveChar(s: string, c: char): (r: string)
    ensures c !in r
    ensures |r| <= |s|
  {
    if s == [] then "" else (if s[0] == c then "" else [s[0]]) + RemoveChar(s[1..], c)
  }

  /**
   * `stripMacAddress`: split at the colons and join the pieces with nothing
   * between them, which removes every colon and keeps every other
   * character, in order.
   */
  function StripMacAddress(macAddress: string): (r: string)
    ensures r == RemoveChar(macAddress, ':')
    ensures ':' !in r
  {
    ConcatSplitRemovesSeparator(macAddress, ':');
    Concat(Split(macAddress, ':'))
  }

  lemma {:induction false} ConcatSplitRemovesSeparator(s: string, c: char)
    ensures Concat(Split(s, c)) == RemoveChar(s, c)
    decreases |s|
  {
    if s != [] {
      ConcatSplitRemovesSeparator(s[1..], c);
      var rest := Split(s[1..], c);
      if s[0] == c {
        assert Split(s, c) == [""] + rest;
        assert ([""] + rest)[1..] == rest;
      } else {
        var fields := [[s[0]] + rest[0]] + rest[1..];
        assert Split(s, c) == fields;
        assert fields[1..] == rest[1..];
        assert Concat(rest) == rest[0] + Concat(rest[1..]);
      }
    }
  }

  /** A MAC written as colon-separated groups becomes the groups side by side. */
  lemma StripMacAddressOfGroups(groups: seq<string>)
    requires |groups| >= 1
    requires forall k :: 0 <= k < |groups| ==> ':' !in groups[k]
    ensures StripMacAddress(Join(groups, ":")) == Concat(groups)
  {
    SplitJoin(groups, ':');
  }
}
