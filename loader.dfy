/**
 * The line filter of the LS-8 loader: which lines of a program file are
 * instructions, and which numbers they denote. The file handling around
 * it is not modelled; a program file is given as its sequence of lines.
 */
module Loader {
  import opened Results
  import opened Binary

  /** Why a program cannot be loaded. */
  datatype LoadError = InvalidNumber(token: string) | EmptyProgram

  /** The characters Python's `str.split()` and `str.strip()` treat as whitespace. */
  predicate IsSpace(c: char) {
    ('\t' <= c <= '\r') || ('\U{1C}' <= c <= '\U{20}') || c == '\U{85}' || c == '\U{A0}'
    || c == '\U{1680}' || ('\U{2000}' <= c <= '\U{200A}') || c == '\U{2028}' || c == '\U{2029}'
    || c == '\U{202F}' || c == '\U{205F}' || c == '\U{3000}'
  }

  predicate AllSpace(s: string) {
    forall i :: 0 <= i < |s| ==> IsSpace(s[i])
  }

  predicate NoSpace(s: string) {
    forall i :: 0 <= i < |s| ==> !IsSpace(s[i])
  }

  /** Where the first token of a line starts: the length of its leading whitespace. */
  function TokenStart(line: string): (k: nat)
    ensures k <= |line| && (k < |line| ==> !IsSpace(line[k]))
  {
    if line == [] || !IsSpace(line[0]) then 0 else 1 + TokenStart(line[1..])
  }

  /** The longest prefix of s without whitespace. */
  function Word(s: string): (w: string)
    ensures |w| <= |s| && (s != [] && !IsSpace(s[0]) ==> w != [])
  {
    if s == [] || IsSpace(s[0]) then [] else [s[0]] + Word(s[1..])
  }

  /** Leading whitespace ends at TokenStart, at the first other character. */
  lemma {:induction false} TokenStartPlace(line: string)
    ensures var k := TokenStart(line);
      AllSpace(line[..k]) && (k < |line| ==> !IsSpace(line[k]))
  {
    if line != [] && IsSpace(line[0]) {
      TokenStartPlace(line[1..]);
      var k := TokenStart(line);
      assert line[..k] == [line[0]] + line[1..][..k - 1];
    }
  }

  /** Word is a prefix without whitespace that stops at whitespace or at the end. */
  lemma {:induction false} WordPlace(s: string)
    ensures var w := Word(s);
      w == s[..|w|] && NoSpace(w) && (|w| < |s| ==> IsSpace(s[|w|]))
  {
    if s != [] && !IsSpace(s[0]) {
      WordPlace(s[1..]);
    }
  }

  /**
   * `line.strip().split()[0]`, or None when the split is empty: the first
   * maximal run of non-whitespace characters of the line.
   */
  function FirstToken(line: string): (r: Option<string>)
    ensures r.Some? ==> r.value != []
  {
    var k := TokenStart(line);
    if k == |line| then None else Some(Word(line[k..]))
  }

  /**
   * The first token is well placed: there is none exactly when the line is
   * all whitespace; otherwise it follows the leading whitespace, contains
   * none itself, and ends at the end of the line or at whitespace.
   */
  lemma FirstTokenPlace(line: string)
    ensures FirstToken(line).None? <==> AllSpace(line)
    ensures FirstToken(line).Some? ==>
      var t, k := FirstToken(line).value, TokenStart(line);
      NoSpace(t) && AllSpace(line[..k]) && k + |t| <= |line| && line[k..k + |t|] == t
      && (k + |t| == |line| || IsSpace(line[k + |t|]))
  {
    var k := TokenStart(line);
    TokenStartPlace(line);
    if k == |line| {
      assert line[..k] == line;
    } else {
      var rest := line[k..];
      WordPlace(rest);
      var w := Word(rest);
      assert FirstToken(line) == Some(w);
      assert rest[..|w|] == line[k..k + |w|];
      assert |w| < |rest| ==> rest[|w|] == line[k + |w|];
      assert !AllSpace(line) by { assert !IsSpace(line[k]); }
    }
  }

  /** A line the loader passes over: blank, or its first token starts with `#`. */
  predicate Skipped(line: string)
    ensures Skipped(line) <==> TokenStart(line) == |line| || line[TokenStart(line)] == '#'
  {
    match FirstToken(line)
    case None => true
    case Some(t) => t[0] == '#'
  }

  /** The token a single line contributes to the program: none, or its first token. */
  function LineToken(line: string): (toks: seq<string>)
    ensures |toks| <= 1
    ensures toks == [] <==> TokenStart(line) == |line| || line[TokenStart(line)] == '#'
  {
    if Skipped(line) then [] else [FirstToken(line).value]
  }

  /** The first tokens of the lines that are not skipped, in file order. */
  function Accepted(lines: seq<string>): (toks: seq<string>)
    ensures |toks| <= |lines|
    decreases |lines|
  {
    if lines == [] then []
    else Accepted(lines[..|lines| - 1]) + LineToken(lines[|lines| - 1])
  }

  /** Every accepted token is a non-empty, whitespace-free first token that does not start with `#`. */
  lemma {:induction false} AcceptedTokens(lines: seq<string>)
    ensures forall j :: 0 <= j < |Accepted(lines)| ==>
      var t := Accepted(lines)[j]; t != [] && t[0] != '#' && NoSpace(t)
    decreases |lines|
  {
    if lines != [] {
      AcceptedTokens(lines[..|lines| - 1]);
      FirstTokenPlace(lines[|lines| - 1]);
    }
  }

  /** How far the loader gets through a token sequence: the values stored, and the error that stopped it. */
  datatype Scanned = Scanned(values: seq<nat>, error: Option<LoadError>)

  /**
   * The loader's loop over the accepted tokens: each valid numeral is
   * stored at the next address, and the first invalid one stops it.
   */
  function Scan(toks: seq<string>): (sc: Scanned)
    ensures |sc.values| <= |toks|
    decreases |toks|
  {
    if toks == [] then Scanned([], None)
    else
      var sc := Scan(toks[..|toks| - 1]);
      var last := toks[|toks| - 1];
      if sc.error.Some? then sc
      else match ParseBinary(last)
        case None => Scanned(sc.values, Some(InvalidNumber(last)))
        case Some(v) => Scanned(sc.values + [v], None)
  }

  /**
   * What the scan means: the values stored are those of the longest run of
   * valid numerals at the front, and the error, if any, names the token
   * right after that run, which is not a numeral.
   */
  lemma {:induction false} ScanMeaning(toks: seq<string>)
    ensures var sc := Scan(toks);
      && (forall j :: 0 <= j < |sc.values| ==> ParseBinary(toks[j]) == Some(sc.values[j]))
      && (sc.error.None? <==> |sc.values| == |toks|)
      && (sc.error.Some? ==>
            ParseBinary(toks[|sc.values|]).None? && sc.error == Some(InvalidNumber(toks[|sc.values|])))
    decreases |toks|
  {
    if toks != [] {
      ScanMeaning(toks[..|toks| - 1]);
    }
  }

  /** The values the loader writes to RAM, from address 0, before it stops. */
  function Stored(lines: seq<string>): (v: seq<nat>)
    ensures |v| <= |Accepted(lines)|
    ensures forall j :: 0 <= j < |v| ==> ParseBinary(Accepted(lines)[j]) == Some(v[j])
  {
    ScanMeaning(Accepted(lines));
    Scan(Accepted(lines)).values
  }

  /**
   * The program a file of lines denotes: the values of its accepted tokens,
   * or the first invalid numeral, or EmptyProgram when no line is accepted.
   */
  function Program(lines: seq<string>): (r: Result<seq<nat>, LoadError>)
    ensures r.Ok? ==> r.value == Stored(lines) && r.value != []
  {
    var sc := Scan(Accepted(lines));
    if sc.error.Some? then Err(sc.error.value)
    else if sc.values == [] then Err(EmptyProgram)
    else Ok(sc.values)
  }

  /** Accepting one more line appends that line's token, if any. */
  lemma AcceptedSnoc(lines: seq<string>, line: string)
    ensures Accepted(lines + [line]) == Accepted(lines) + LineToken(line)
  {
    assert (lines + [line])[..|lines|] == lines;
  }

  /** Accepting lines distributes over concatenating files. */
  lemma {:induction false} AcceptedAppend(a: seq<string>, b: seq<string>)
    ensures Accepted(a + b) == Accepted(a) + Accepted(b)
    decreases |b|
  {
    if b == [] {
      assert a + b == a;
    } else {
      var b', line := b[..|b| - 1], b[|b| - 1];
      assert a + b == (a + b') + [line];
      assert b == b' + [line];
      calc {
        Accepted(a + b);
        { AcceptedSnoc(a + b', line); }
        Accepted(a + b') + LineToken(line);
        { AcceptedAppend(a, b'); }
        Accepted(a) + Accepted(b') + LineToken(line);
        { AcceptedSnoc(b', line); }
        Accepted(a) + Accepted(b);
      }
    }
  }

  /** Once the loader has stopped on an error, later tokens change nothing. */
  lemma {:induction false} ScanAfterError(a: seq<string>, b: seq<string>)
    requires Scan(a).error.Some?
    ensures Scan(a + b) == Scan(a)
    decreases |b|
  {
    if b == [] {
      assert a + b == a;
    } else {
      var c := a + b;
      assert c[..|c| - 1] == a + b[..|b| - 1];
      ScanAfterError(a, b[..|b| - 1]);
    }
  }

  /** What the loader stores for a token prefix is a prefix of what it stores for the whole sequence. */
  lemma {:induction false} ScanPrefix(a: seq<string>, b: seq<string>)
    ensures Scan(a).values <= Scan(a + b).values
    decreases |b|
  {
    if b == [] {
      assert a + b == a;
    } else {
      var c := a + b;
      assert c[..|c| - 1] == a + b[..|b| - 1];
      ScanPrefix(a, b[..|b| - 1]);
    }
  }

  /**
   * A file loads exactly when at least one line is accepted and every
   * accepted token is a binary numeral; the program is then the values of
   * those tokens, in file order.
   */
  lemma ProgramOk(lines: seq<string>, p: seq<nat>)
    ensures Program(lines) == Ok(p) <==>
      var toks := Accepted(lines);
      toks != [] && |p| == |toks| && forall j :: 0 <= j < |toks| ==> ParseBinary(toks[j]) == Some(p[j])
  {
    var toks := Accepted(lines);
    var sc := Scan(toks);
    ScanMeaning(toks);
    if toks != [] && |p| == |toks| && forall j :: 0 <= j < |toks| ==> ParseBinary(toks[j]) == Some(p[j]) {
      assert sc.values == p;
    }
  }

  /** Token k is the first one that is not a binary numeral. */
  predicate FirstInvalid(toks: seq<string>, k: int) {
    0 <= k < |toks| && ParseBinary(toks[k]).None?
    && forall j :: 0 <= j < k ==> ParseBinary(toks[j]).Some?
  }

  /** The scan stops on the first token that is not a numeral, having stored all before it. */
  lemma ScanStopsAt(toks: seq<string>, k: int)
    requires FirstInvalid(toks, k)
    ensures |Scan(toks).values| == k && Scan(toks).error == Some(InvalidNumber(toks[k]))
  {
    ScanMeaning(toks);
    var m := |Scan(toks).values|;
    if Scan(toks).error.None? { assert false; }
    if m < k { assert false; }
    if m > k { assert false; }
  }

  /** The load fails on a numeral exactly when it is the first accepted token that is not one. */
  lemma ProgramInvalidNumber(lines: seq<string>, t: string)
    ensures Program(lines) == Err(InvalidNumber(t)) <==>
      exists k :: FirstInvalid(Accepted(lines), k) && Accepted(lines)[k] == t
  {
    var toks := Accepted(lines);
    if k :| FirstInvalid(toks, k) && toks[k] == t {
      ScanStopsAt(toks, k);
    }
    if Program(lines) == Err(InvalidNumber(t)) {
      ScanMeaning(toks);
      var m := |Scan(toks).values|;
      assert FirstInvalid(toks, m) && toks[m] == t;
      assert exists k :: FirstInvalid(Accepted(lines), k) && Accepted(lines)[k] == t;
    }
  }

  /** The empty-program error is raised exactly when no line is accepted. */
  lemma ProgramEmpty(lines: seq<string>)
    ensures Program(lines) == Err(EmptyProgram) <==> Accepted(lines) == []
  {
    ScanMeaning(Accepted(lines));
  }

  /** Inserting a blank or comment line anywhere in a file does not change what it loads. */
  lemma SkippedLineIgnored(before: seq<string>, line: string, after: seq<string>)
    requires Skipped(line)
    ensures Accepted(before + [line] + after) == Accepted(before + after)
    ensures Program(before + [line] + after) == Program(before + after)
  {
    AcceptedAppend(before + [line], after);
    AcceptedSnoc(before, line);
    AcceptedAppend(before, after);
    assert Accepted(before + [line]) == Accepted(before);
  }

  /** Only the first token of a line matters: files whose lines agree on it load alike. */
  lemma {:induction false} FirstTokenDecides(a: seq<string>, b: seq<string>)
    requires |a| == |b|
    requires forall i :: 0 <= i < |a| ==> FirstToken(a[i]) == FirstToken(b[i])
    ensures Accepted(a) == Accepted(b)
    ensures Program(a) == Program(b)
    decreases |a|
  {
    if a != [] {
      FirstTokenDecides(a[..|a| - 1], b[..|b| - 1]);
      assert LineToken(a[|a| - 1]) == LineToken(b[|b| - 1]);
    }
  }

  /** Accepting the lines of a file is accepting its first i lines, then the rest. */
  lemma AcceptedSplit(lines: seq<string>, i: nat)
    requires i <= |lines|
    ensures Accepted(lines) == Accepted(lines[..i]) + Accepted(lines[i..])
  {
    assert lines == lines[..i] + lines[i..];
    AcceptedAppend(lines[..i], lines[i..]);
  }

  /** The loader's view of the first i lines of a file, against the whole file. */
  lemma LinePrefix(lines: seq<string>, i: nat)
    requires i <= |lines|
    ensures Stored(lines[..i]) <= Stored(lines)
    ensures Scan(Accepted(lines[..i])).error.Some? ==> Scan(Accepted(lines)) == Scan(Accepted(lines[..i]))
  {
    AcceptedSplit(lines, i);
    var a, b := Accepted(lines[..i]), Accepted(lines[i..]);
    ScanPrefix(a, b);
    if Scan(a).error.Some? {
      ScanAfterError(a, b);
    }
  }

  /** One more line: the loader sees that line's token after those of the earlier lines. */
  lemma NextLine(lines: seq<string>, i: nat)
    requires i < |lines|
    ensures Accepted(lines[..i + 1]) == Accepted(lines[..i]) + LineToken(lines[i])
  {
    assert lines[..i + 1] == lines[..i] + [lines[i]];
    AcceptedSnoc(lines[..i], lines[i]);
  }

  /** One more token after a clean prefix: it is stored, or it is the error. */
  lemma NextToken(toks: seq<string>, t: string)
    requires Scan(toks).error.None?
    ensures Scan(toks + [t]) == match ParseBinary(t)
      case None => Scanned(Scan(toks).values, Some(InvalidNumber(t)))
      case Some(v) => Scanned(Scan(toks).values + [v], None)
  {
    assert (toks + [t])[..|toks|] == toks;
  }

  /** The loop state after line i: no error yet, and `stored` at addresses 0, 1, 2, .... */
  predicate LoadedThrough(lines: seq<string>, i: nat, stored: seq<nat>)
    requires i <= |lines|
  {
    Scan(Accepted(lines[..i])) == Scanned(stored, None)
  }

  /** The loop body on a skipped line: nothing is stored. */
  lemma LoadSkipped(lines: seq<string>, i: nat, stored: seq<nat>)
    requires i < |lines| && LoadedThrough(lines, i, stored) && Skipped(lines[i])
    ensures LoadedThrough(lines, i + 1, stored)
  {
    NextLine(lines, i);
    assert Accepted(lines[..i]) + LineToken(lines[i]) == Accepted(lines[..i]);
  }

  /** The loop body on a line whose token t is a numeral: its value is stored next, still within the whole file's program. */
  lemma LoadValue(lines: seq<string>, i: nat, stored: seq<nat>, t: string, v: nat)
    requires i < |lines| && LoadedThrough(lines, i, stored)
    requires FirstToken(lines[i]) == Some(t) && t[0] != '#' && ParseBinary(t) == Some(v)
    ensures LoadedThrough(lines, i + 1, stored + [v])
    ensures |stored| < |Stored(lines)|
  {
    NextLine(lines, i);
    assert Accepted(lines[..i + 1]) == Accepted(lines[..i]) + [t];
    NextToken(Accepted(lines[..i]), t);
    LinePrefix(lines, i + 1);
  }

  /** The loop body on a line whose token t is not a numeral: the whole file fails on t. */
  lemma LoadInvalid(lines: seq<string>, i: nat, stored: seq<nat>, t: string)
    requires i < |lines| && LoadedThrough(lines, i, stored)
    requires FirstToken(lines[i]) == Some(t) && t[0] != '#' && ParseBinary(t).None?
    ensures Program(lines) == Err(InvalidNumber(t)) && Stored(lines) == stored
  {
    NextLine(lines, i);
    assert Accepted(lines[..i + 1]) == Accepted(lines[..i]) + [t];
    NextToken(Accepted(lines[..i]), t);
    LinePrefix(lines, i + 1);
  }

  /** After the last line without error: the program, or the empty-program error. */
  lemma LoadEnd(lines: seq<string>, stored: seq<nat>)
    requires LoadedThrough(lines, |lines|, stored)
    ensures Stored(lines) == stored
    ensures Program(lines) == if stored == [] then Err(EmptyProgram) else Ok(stored)
  {
    assert lines[..|lines|] == lines;
  }
}
