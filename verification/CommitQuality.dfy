/**
 * The commit quality gate. Which paths are of which kind, what marks a stub, what is DDL and how
 * many prose lines a diff adds are read by patterns that a `Reader` stands for.
 */
module CommitQuality {
  import opened Options
  import opened Numstat
  import opened Strings

  datatype Category = Source | Migration | Doc | Dist | PlaceholderConfig | BuildConfig | Other

  datatype Reader = Reader(
    classify: string -> Category, stubMarker: string -> Option<string>, hasDdl: string -> bool,
    proseLines: string -> nat)

  datatype Input = Input(message: string, files: seq<FileStat>, diffText: string)

  datatype Reason =
    | StubSubject(marker: string)
    | StubBody
    | NoFiles
    | DistOnly
    | AuthorshipPassed
    | SourceChange(insertions: nat, files: nat)
    | DdlMigration
    | Documentation(largest: nat)
    | BuildMaintenance(files: nat)
    | SmallSource(insertions: nat)
    | TrivialDocs(files: nat, largest: nat)
    | NothingSubstantive

  datatype Verdict = Verdict(quality: bool, reason: Reason)

  const MIN_SOURCE_INSERTIONS := 8
  const MIN_DOC_PROSE_LINES := 20
  const MIN_MIGRATION_INSERTIONS := 6

  function Ins(f: FileStat): nat {
    if f.insertions < 0 then 0 else f.insertions
  }

  function Of(files: seq<FileStat>, category: Category, reader: Reader): seq<FileStat> {
    if files == [] then []
    else if reader.classify(files[0].path) == category then [files[0]] + Of(files[1..], category, reader)
    else Of(files[1..], category, reader)
  }

  function NonDist(files: seq<FileStat>, reader: Reader): seq<FileStat> {
    if files == [] then []
    else if reader.classify(files[0].path).Dist? then NonDist(files[1..], reader)
    else [files[0]] + NonDist(files[1..], reader)
  }

  function Total(files: seq<FileStat>): nat {
    if files == [] then 0 else Ins(files[0]) + Total(files[1..])
  }

  function Largest(files: seq<FileStat>): nat {
    if files == [] then 0
    else if Ins(files[0]) < Largest(files[1..]) then Largest(files[1..])
    else Ins(files[0])
  }

  function Subject(message: string): string {
    Split(message, '\n')[0]
  }

  function Body(message: string): string {
    if |Subject(message)| <= |message| then message[|Subject(message)|..] else ""
  }

  function Assess(input: Input, authorship: bool, reader: Reader): Verdict {
    var files := input.files;
    var marker := reader.stubMarker(Subject(input.message));
    if marker.Some? then Verdict(false, StubSubject(marker.value))
    else if reader.stubMarker(Body(input.message)).Some? then Verdict(false, StubBody)
    else if files == [] then Verdict(false, NoFiles)
    else if NonDist(files, reader) == [] then Verdict(false, DistOnly)
    else if authorship then Verdict(true, AuthorshipPassed)
    else AssessContent(files, input.diffText, reader)
  }

  function AssessContent(files: seq<FileStat>, diffText: string, reader: Reader): Verdict {
    var sources, docs := Of(files, Source, reader), Of(files, Doc, reader);
    var builds := Of(files, BuildConfig, reader);
    if Total(sources) >= MIN_SOURCE_INSERTIONS then Verdict(true, SourceChange(Total(sources), |sources|))
    else if exists m | m in Of(files, Migration, reader) ::
              Ins(m) >= MIN_MIGRATION_INSERTIONS && reader.hasDdl(diffText)
      then Verdict(true, DdlMigration)
    else if docs != [] && (forall f | f in NonDist(files, reader) :: reader.classify(f.path).Doc?)
            && Largest(docs) >= MIN_DOC_PROSE_LINES && reader.proseLines(diffText) >= 12
      then Verdict(true, Documentation(Largest(docs)))
    else if builds != [] && Of(files, PlaceholderConfig, reader) == [] then Verdict(true, BuildMaintenance(|builds|))
    else if sources != [] then Verdict(false, SmallSource(Total(sources)))
    else if docs != [] then Verdict(false, TrivialDocs(|docs|, Largest(docs)))
    else Verdict(false, NothingSubstantive)
  }

  // ---- What the verdict depends on ---------------------------------------------------------

  lemma {:induction false} OfIgnoresDist(files: seq<FileStat>, category: Category, reader: Reader)
    requires !category.Dist?
    ensures Of(NonDist(files, reader), category, reader) == Of(files, category, reader)
  {
    if files != [] {
      OfIgnoresDist(files[1..], category, reader);
      var rest := NonDist(files[1..], reader);
      if !reader.classify(files[0].path).Dist? {
        assert ([files[0]] + rest)[1..] == rest;
      }
    }
  }

  function Without<T>(s: seq<T>, i: nat): seq<T>
    requires i < |s|
  {
    s[..i] + s[i + 1..]
  }

  /** Where a file stands in a list does not matter to totals, maxima or what is kept. */
  lemma {:induction false} TakeOut(files: seq<FileStat>, i: nat)
    requires i < |files|
    ensures var f, rest := files[i], Without(files, i);
            && Total(files) == Ins(f) + Total(rest)
            && Largest(files) == (if Ins(f) < Largest(rest) then Largest(rest) else Ins(f))
            && multiset(files) == multiset{f} + multiset(rest)
  {
    var rest := Without(files, i);
    assert files == [files[0]] + files[1..];
    if i == 0 {
      assert rest == files[1..];
    } else {
      TakeOut(files[1..], i - 1);
      assert rest == [files[0]] + Without(files[1..], i - 1);
    }
  }

  lemma {:induction false} TakeOutOf(files: seq<FileStat>, i: nat, category: Category, reader: Reader)
    requires i < |files|
    ensures multiset(Of(files, category, reader)) ==
            (if reader.classify(files[i].path) == category then multiset{files[i]} else multiset{})
            + multiset(Of(Without(files, i), category, reader))
  {
    var rest := Without(files, i);
    if i == 0 {
      assert rest == files[1..];
    } else {
      TakeOutOf(files[1..], i - 1, category, reader);
      assert rest[0] == files[0] && rest[1..] == Without(files[1..], i - 1);
    }
  }

  /** Totals and maxima, and the multiset of each category, depend only on the multiset of files. */
  lemma {:induction false} OrderIsIrrelevant(a: seq<FileStat>, b: seq<FileStat>, category: Category, reader: Reader)
    requires multiset(a) == multiset(b)
    ensures Total(a) == Total(b) && Largest(a) == Largest(b) && |a| == |b|
    ensures multiset(Of(a, category, reader)) == multiset(Of(b, category, reader))
    decreases |a|
  {
    hide Total, Largest, Of;
    assert |a| == |multiset(a)| == |multiset(b)| == |b|;
    if a == [] {
      assert b == [];
    } else {
      assert a[0] in multiset(b);
      var i :| 0 <= i < |b| && b[i] == a[0];
      var a', b' := Without(a, 0), Without(b, i);
      TakeOut(a, 0);
      TakeOut(b, i);
      TakeOutOf(a, 0, category, reader);
      TakeOutOf(b, i, category, reader);
      assert multiset(a') == multiset(a) - multiset{a[0]} == multiset(b');
      OrderIsIrrelevant(a', b', category, reader);
    }
  }

  // The figures the verdict on a content is made from agree.
  ghost predicate SameFigures(a: seq<FileStat>, b: seq<FileStat>, category: Category, reader: Reader) {
    var x, y := Of(a, category, reader), Of(b, category, reader);
    multiset(x) == multiset(y) && |x| == |y| && Total(x) == Total(y) && Largest(x) == Largest(y)
  }

  lemma SameNonDistSameFigures(a: seq<FileStat>, b: seq<FileStat>, category: Category, reader: Reader)
    requires multiset(NonDist(a, reader)) == multiset(NonDist(b, reader)) && !category.Dist?
    ensures SameFigures(a, b, category, reader)
  {
    OfIgnoresDist(a, category, reader);
    OfIgnoresDist(b, category, reader);
    OrderIsIrrelevant(NonDist(a, reader), NonDist(b, reader), category, reader);
    OrderIsIrrelevant(Of(a, category, reader), Of(b, category, reader), category, reader);
  }

  lemma SameMembers<T>(a: seq<T>, b: seq<T>)
    requires multiset(a) == multiset(b)
    ensures forall x :: x in a <==> x in b
  {
    assert forall x :: x in a <==> x in multiset(a);
    assert forall x :: x in b <==> x in multiset(b);
  }

  /**
   * For one message and diff text, the verdict and its reason depend, in both modes, only on the
   * multiset of files outside `dist`, when there is one: order and build output do not matter.
   */
  lemma VerdictIgnoresOrderAndDist(a: Input, b: Input, authorship: bool, reader: Reader)
    requires a.message == b.message && a.diffText == b.diffText
    requires multiset(NonDist(a.files, reader)) == multiset(NonDist(b.files, reader))
    requires NonDist(a.files, reader) != []
    ensures Assess(a, authorship, reader) == Assess(b, authorship, reader)
  {
    hide Of, NonDist, Total, Largest;
    SameMembers(NonDist(a.files, reader), NonDist(b.files, reader));
    assert NonDist(a.files, reader)[0] in NonDist(b.files, reader);
    NoFilesNoNonDist(a.files, reader);
    NoFilesNoNonDist(b.files, reader);
    SameNonDistSameFigures(a.files, b.files, Source, reader);
    SameNonDistSameFigures(a.files, b.files, Doc, reader);
    SameNonDistSameFigures(a.files, b.files, BuildConfig, reader);
    SameNonDistSameFigures(a.files, b.files, PlaceholderConfig, reader);
    SameNonDistSameFigures(a.files, b.files, Migration, reader);
    SameMembers(Of(a.files, Migration, reader), Of(b.files, Migration, reader));
  }

  lemma NoFilesNoNonDist(files: seq<FileStat>, reader: Reader)
    ensures files == [] ==> NonDist(files, reader) == []
  {
  }

  /** The total is additive, and a file adds its insertions, a binary one nothing. */
  lemma {:induction false} TotalIsSum(a: seq<FileStat>, b: seq<FileStat>, f: FileStat)
    ensures Total(a + b) == Total(a) + Total(b)
    ensures Total([f]) == (if f.insertions > 0 then f.insertions else 0) && Total([]) == 0
  {
    if a == [] {
      assert a + b == b;
    } else {
      TotalIsSum(a[1..], b, f);
      assert (a + b)[1..] == a[1..] + b;
    }
    assert [f][1..] == [];
  }

  lemma {:induction false} FirstPartIsPrefix(s: string, sep: char)
    ensures var first := Split(s, sep)[0];
            && first <= s && sep !in first && (|first| < |s| ==> s[|first|] == sep)
  {
    if s != "" && s[0] != sep {
      FirstPartIsPrefix(s[1..], sep);
    }
  }

  /** A message is its subject, which holds no line break, and its body, which is empty or begins with one. */
  lemma MessageIsSubjectAndBody(message: string)
    ensures message == Subject(message) + Body(message) && '\n' !in Subject(message)
    ensures Body(message) == "" || Body(message)[0] == '\n'
  {
    FirstPartIsPrefix(message, '\n');
  }

  lemma {:induction false} OfFilters(files: seq<FileStat>, category: Category, reader: Reader)
    ensures forall f :: f in Of(files, category, reader) <==> f in files && reader.classify(f.path) == category
  {
    if files != [] {
      OfFilters(files[1..], category, reader);
    }
  }

  lemma {:induction false} NonDistFilters(files: seq<FileStat>, reader: Reader)
    ensures forall f :: f in NonDist(files, reader) <==> f in files && !reader.classify(f.path).Dist?
  {
    if files != [] {
      NonDistFilters(files[1..], reader);
    }
  }

  lemma {:induction false} LargestIsReached(files: seq<FileStat>, bound: nat)
    requires bound > 0
    ensures Largest(files) >= bound <==> exists f | f in files :: Ins(f) >= bound
  {
    if files != [] {
      LargestIsReached(files[1..], bound);
      assert files[0] in files;
    }
  }

  ghost predicate Has(files: seq<FileStat>, category: Category, reader: Reader, bound: nat) {
    exists f | f in files :: reader.classify(f.path) == category && Ins(f) >= bound
  }

  ghost predicate IsStub(message: string, reader: Reader) {
    reader.stubMarker(Subject(message)).Some? || reader.stubMarker(Body(message)).Some?
  }

  ghost predicate IsSubstantive(input: Input, reader: Reader) {
    var files := input.files;
    || Total(Of(files, Source, reader)) >= 8
    || (Has(files, Migration, reader, 6) && reader.hasDdl(input.diffText))
    || (&& Has(files, Doc, reader, 20) && reader.proseLines(input.diffText) >= 12
        && forall f | f in files :: reader.classify(f.path).Doc? || reader.classify(f.path).Dist?)
    || (Has(files, BuildConfig, reader, 0) && !Has(files, PlaceholderConfig, reader, 0))
  }

  /**
   * What each mode accepts, whatever the order of the tests: no stub text and a file outside dist;
   * the publish boundary also wants enough source, a real migration, documentation alone with
   * enough prose, or build maintenance without placeholder configuration.
   */
  lemma AcceptsExactly(input: Input, reader: Reader)
    ensures var files := input.files;
            var plausible := !IsStub(input.message, reader) && exists f | f in files :: !reader.classify(f.path).Dist?;
            && (Assess(input, true, reader).quality <==> plausible)
            && (Assess(input, false, reader).quality <==> (plausible && IsSubstantive(input, reader)))
  {
    hide Of, NonDist, Total, Largest, Subject, Body;
    var files := input.files;
    NonDistFilters(files, reader);
    OfFilters(files, Migration, reader);
    OfFilters(files, Doc, reader);
    OfFilters(files, BuildConfig, reader);
    OfFilters(files, PlaceholderConfig, reader);
    LargestIsReached(Of(files, Doc, reader), 20);
    NonEmpty(NonDist(files, reader));
    NonEmpty(Of(files, Doc, reader));
    NonEmpty(Of(files, BuildConfig, reader));
    NonEmpty(Of(files, PlaceholderConfig, reader));
  }

  lemma NonEmpty<T>(s: seq<T>)
    ensures s != [] <==> exists x :: x in s
  {
    if s != [] { assert s[0] in s; }
  }

  /** The reason given, in the order the tests are made. */
  lemma ReasonsAreOrdered(input: Input, reader: Reader)
    ensures var v, files := Assess(input, false, reader).reason, input.files;
            var subject, body := reader.stubMarker(Subject(input.message)), reader.stubMarker(Body(input.message));
            var source := Total(Of(files, Source, reader));
            && (v.StubSubject? <==> subject.Some?) && (v.StubSubject? ==> v.marker == subject.value)
            && (v.StubBody? <==> subject.None? && body.Some?)
            && (v.NoFiles? <==> subject.None? && body.None? && files == [])
            && (v.DistOnly? <==> subject.None? && body.None? && files != []
                                 && forall f | f in files :: reader.classify(f.path).Dist?)
            && (v.SourceChange? ==> v.insertions == source >= 8 && v.files == |Of(files, Source, reader)|)
            && (v.SmallSource? ==> v.insertions == source < 8 && Has(files, Source, reader, 0))
            && (v.TrivialDocs? ==> Has(files, Doc, reader, 0) && !Has(files, Source, reader, 0)
                                   && v.files == |Of(files, Doc, reader)|
                                   && v.largest == Largest(Of(files, Doc, reader)))
            && (v.NothingSubstantive? ==> !Has(files, Doc, reader, 0) && !Has(files, Source, reader, 0))
            && (v.DdlMigration? ==> Has(files, Migration, reader, 6) && reader.hasDdl(input.diffText) && source < 8)
            && (v.Documentation? ==> Has(files, Doc, reader, 20) && v.largest == Largest(Of(files, Doc, reader)))
            && (v.BuildMaintenance? ==> Has(files, BuildConfig, reader, 0) && !Has(files, PlaceholderConfig, reader, 0)
                                        && v.files == |Of(files, BuildConfig, reader)|)
            && !v.AuthorshipPassed?
  {
    hide Of, NonDist, Total, Largest, Subject, Body;
    var files := input.files;
    NonDistFilters(files, reader);
    OfFilters(files, Source, reader);
    OfFilters(files, Migration, reader);
    OfFilters(files, Doc, reader);
    OfFilters(files, BuildConfig, reader);
    OfFilters(files, PlaceholderConfig, reader);
    LargestIsReached(Of(files, Doc, reader), 20);
    NonEmpty(NonDist(files, reader));
    NonEmpty(Of(files, Source, reader));
    NonEmpty(Of(files, Doc, reader));
    NonEmpty(Of(files, BuildConfig, reader));
    NonEmpty(Of(files, PlaceholderConfig, reader));
  }

  /** What the publish boundary accepts, the authorship boundary accepts. */
  lemma StrictImpliesAuthorship(input: Input, reader: Reader)
    ensures Assess(input, false, reader).quality ==> Assess(input, true, reader).quality
  {
  }
}
