/** Reading `git --numstat` text: one line a file, tab-separated counts, then the path. */
module Numstat {
  import opened Strings

  // `-1` stands for a binary file's unknown count.
  datatype FileStat = FileStat(path: string, insertions: int, deletions: int)

  function ReadCount(s: string): int {
    if s == "-" then -1
    else
      var n := ParseInt(s);
      if n.Some? then n.value else 0
  }

  function ParseLine(raw: string): seq<FileStat> {
    var parts := Split(Trim(raw), '\t');
    if Trim(raw) == "" || |parts| < 3 then []
    else [FileStat(Join(parts[2..], '\t'), ReadCount(parts[0]), ReadCount(parts[1]))]
  }

  function ParseLines(lines: seq<string>): seq<FileStat> {
    if lines == [] then [] else ParseLine(lines[0]) + ParseLines(lines[1..])
  }

  method ParseNumstat(numstat: string) returns (out: seq<FileStat>)
    ensures out == ParseLines(Split(numstat, '\n'))
  {
    out := [];
    var lines := Split(numstat, '\n');
    hide Split, Trim, Join, ReadCount, ParseLine;
    var i := 0;
    while i < |lines|
      invariant 0 <= i <= |lines|
      invariant out + ParseLines(lines[i..]) == ParseLines(lines)
    {
      var line := Trim(lines[i]);
      var parts := Split(line, '\t');
      LineMeans(lines[i]);
      assert lines[i..][1..] == lines[i + 1..];
      if line != "" && |parts| >= 3 {
        out := out + [FileStat(Join(parts[2..], '\t'), ReadCount(parts[0]), ReadCount(parts[1]))];
      }
      i := i + 1;
    }
  }

  /** Counts are read leniently: a dash is a binary file, leading digits count, anything else is none. */
  lemma CountsAreLenient(n: nat, rest: string)
    ensures ReadCount("-") == -1 && ReadCount("-" + Digits(n)) == 0 - n
    ensures rest == "" || !IsDigit(rest[0]) ==> ReadCount(Digits(n) + rest) == n
    ensures rest == "" || (!IsDigit(rest[0]) && !IsSpace(rest[0]) && rest[0] !in "+-") ==> ReadCount(rest) == 0
  {
    var s := Digits(n) + rest;
    DigitsAreDigits(n);
    assert s[0] == Digits(n)[0] && IsDigit(s[0]);
    ReadsBack(n, rest);
    ReadsBack(n, "");
    assert Digits(n) + "" == Digits(n);
    var t := "-" + Digits(n);
    assert t[1..] == Digits(n) && TrimStart(t) == t && |t| > 1;
  }

  lemma LineMeans(raw: string)
    ensures var line := Trim(raw);
            var parts := Split(line, '\t');
            ParseLine(raw) == if line != "" && |parts| >= 3
                              then [FileStat(Join(parts[2..], '\t'), ReadCount(parts[0]), ReadCount(parts[1]))] else []
  {
  }

  // ---- Printing, and reading back ----------------------------------------------------------

  function PrintCount(n: int): string
    requires n >= -1
  {
    if n == -1 then "-" else Digits(n)
  }

  predicate Printable(f: FileStat) {
    && f.insertions >= -1 && f.deletions >= -1
    && f.path != "" && '\n' !in f.path && !IsSpace(f.path[|f.path| - 1])
  }

  function PrintLine(f: FileStat): string
    requires Printable(f)
  {
    PrintCount(f.insertions) + "\t" + PrintCount(f.deletions) + "\t" + f.path
  }

  function PrintLines(files: seq<FileStat>): seq<string>
    requires forall f | f in files :: Printable(f)
  {
    if files == [] then [] else [PrintLine(files[0])] + PrintLines(files[1..])
  }

  function Print(files: seq<FileStat>): string
    requires forall f | f in files :: Printable(f)
  {
    Join(PrintLines(files), '\n')
  }

  /** A line is skipped exactly when, trimmed, it has fewer than two tabs. */
  lemma SkippedExactly(raw: string)
    ensures ParseLine(raw) == [] <==> Occurrences(Trim(raw), '\t') < 2
  {
    hide Trim, Join, ReadCount;
    PartsAreCounted(Trim(raw), '\t');
  }

  lemma CountReadsBack(n: int)
    requires n >= -1
    ensures ReadCount(PrintCount(n)) == n
    ensures '\t' !in PrintCount(n) && '\n' !in PrintCount(n) && PrintCount(n) != "" && !IsSpace(PrintCount(n)[0])
  {
    if n >= 0 {
      var s := Digits(n);
      DigitsAreDigits(n);
      ReadsBack(n, "");
      assert s + "" == s && IsDigit(s[0]);
    }
  }

  /** A printed line reads back as its entry, tabs in the path included. */
  lemma LineReadsBack(f: FileStat)
    requires Printable(f)
    ensures ParseLine(PrintLine(f)) == [f]
    ensures '\n' !in PrintLine(f)
    ensures var line := PrintLine(f); line != "" && !IsSpace(line[0]) && !IsSpace(line[|line| - 1])
  {
    hide ReadCount, PrintCount, Trim, Split, Join;
    var ins, del, path := PrintCount(f.insertions), PrintCount(f.deletions), f.path;
    CountReadsBack(f.insertions);
    CountReadsBack(f.deletions);
    var rest := del + ['\t'] + path;
    assert PrintLine(f) == ins + ['\t'] + rest;
    TrimFixed(PrintLine(f));
    SplitAt(ins, rest, '\t');
    SplitAt(del, path, '\t');
    JoinOfSplit(path, '\t');
    var parts := [ins] + ([del] + Split(path, '\t'));
    assert parts[2..] == Split(path, '\t');
  }

  lemma {:induction false} LinesReadBack(files: seq<FileStat>)
    requires forall f | f in files :: Printable(f)
    ensures ParseLines(PrintLines(files)) == files
    ensures |PrintLines(files)| == |files| && forall l | l in PrintLines(files) :: '\n' !in l
  {
    if files != [] {
      LineReadsBack(files[0]);
      LinesReadBack(files[1..]);
    }
  }

  lemma {:induction false} PrintEnds(files: seq<FileStat>)
    requires files != [] && forall f | f in files :: Printable(f)
    ensures var s := Print(files); s != "" && !IsSpace(s[0]) && !IsSpace(s[|s| - 1])
  {
    hide PrintLine, Trim;
    LineReadsBack(files[0]);
    if |files| > 1 {
      PrintEnds(files[1..]);
      assert PrintLines(files)[1..] == PrintLines(files[1..]);
      assert Print(files) == PrintLine(files[0]) + ['\n'] + Print(files[1..]);
    } else {
      assert files == [files[0]] && PrintLines(files) == [PrintLine(files[0])] + PrintLines([]);
    }
  }

  /** Parsing inverts printing for every list of printable entries, also once the whole output is trimmed. */
  lemma ParseInvertsPrint(files: seq<FileStat>)
    requires forall f | f in files :: Printable(f)
    ensures ParseLines(Split(Print(files), '\n')) == files
    ensures ParseLines(Split(Trim(Print(files)), '\n')) == files
  {
    LinesReadBack(files);
    if files == [] {
      assert Split("", '\n') == [""];
      assert ParseLines([""]) == ParseLine("") + ParseLines([]);
    } else {
      PrintEnds(files);
      TrimFixed(Print(files));
      SplitOfJoin(PrintLines(files), '\n');
    }
  }
}
