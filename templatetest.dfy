/**
 * The template test harness of molt/test/harness/templatetest.py: how a
 * listing of template directories becomes test cases, and how a rendered tree
 * is checked against the expected one, level by level, with a fuzzy file
 * comparison that is a parameter here.
 */
module TemplateTest {
  import opened Wrappers
  import opened StringOrder
  import opened PosixPath
  import opened Lists
  import opened FileCmp
  import DirDiff

  /** `make_expected_dir(template_dir)`. */
  function ExpectedDir(templateDir: string): string
  {
    Join(templateDir, "expected")
  }

  /** The expected directory is the entry `expected` of the template directory. */
  lemma ExpectedDirSplit(templateDir: string)
    ensures Split(ExpectedDir(templateDir)).1 == "expected"
    ensures JoinableDir(templateDir) ==> Split(ExpectedDir(templateDir)).0 == templateDir
  {
    assert ValidName("expected");
    if JoinableDir(templateDir) {
      SplitJoin(templateDir, "expected");
    } else {
      assert ExpectedDir(templateDir) == templateDir + "expected";
      TailStartAfter(templateDir, "expected");
      assert (templateDir + "expected")[|templateDir|..] == "expected";
    }
  }

  // ---------------------------------------------------------------------------
  // Test cases from a listing

  /** A listed name `make_template_tests` keeps: one not starting with a dot. */
  predicate IsTemplateName(n: string)
  {
    !StartsWith(n, ".")
  }

  /** The names `make_template_tests` keeps from `os.listdir(parent_input_dir)`. */
  function TemplateNames(listing: seq<string>): (r: seq<string>)
    ensures forall n :: n in r <==> n in listing && IsTemplateName(n)
  {
    Filter(listing, IsTemplateName)
  }

  /** The filter works name by name and keeps the listing's order. */
  lemma TemplateNamesOrder(a: seq<string>, b: seq<string>, n: string)
    ensures TemplateNames(a + b) == TemplateNames(a) + TemplateNames(b)
    ensures TemplateNames([n]) == if IsTemplateName(n) then [n] else []
  {
    FilterAppend(a, b, IsTemplateName);
    assert [n][1..] == [];
  }

  /** A listing without repeated names gives template names without repeats. */
  lemma {:induction false} TemplateNamesDistinct(listing: seq<string>)
    requires Distinct(listing)
    ensures Distinct(TemplateNames(listing))
  {
    if listing != [] {
      var rest := listing[1..];
      assert Distinct(rest);
      TemplateNamesDistinct(rest);
      assert listing[0] !in rest;
      TemplateNamesOrder([listing[0]], rest, listing[0]);
      assert listing == [listing[0]] + rest;
      DistinctConcat(TemplateNames([listing[0]]), TemplateNames(rest));
    }
  }

  /** Which of the two public entry points builds the test cases:
      `make_template_tests` (one per listed template) or `make_template_test`
      (a single template, whose placeholder name is not used). */
  datatype Naming = PerName | Single

  /** The `make_full_name` of each entry point: the lower-cased group, then,
      for a listed template, two underscores and the template's name, which
      can be read back from the end. */
  function LongName(naming: Naming, group: string, name: string): (r: string)
    ensures |group| <= |r| && r[..|group|] == Lower(group)
    ensures naming.PerName? ==> |r| == |group| + 2 + |name| && r[|group|..|group| + 2] == "__" && r[|group| + 2..] == name
    ensures naming.Single? ==> |r| == |group|
  {
    match naming
    case PerName => Lower(group) + "__" + name
    case Single => Lower(group)
  }

  /** The arguments `assert_template` hands to `_assert_template`: the template's
      name, its long name, its directory and its expected directory. */
  datatype Assertion = Assertion(templateName: string, longName: string, templateDir: string, expectedDir: string)

  /** A test case: the class it is an instance of, the name of the test method
      it runs, and what that method asserts. */
  datatype TestCase = TestCase(className: string, methodName: string, assertion: Assertion)

  /** `make_assert_template(group_name, name, input_dir)` of each entry point:
      a listed template's directory is its entry under the parent, a single
      template's is the directory given, and either way the expected
      directory is the `expected` entry inside it. */
  function AssertionFor(naming: Naming, group: string, name: string, inputDir: string): (r: Assertion)
    ensures r.longName == LongName(naming, group, name)
    ensures Split(r.expectedDir).1 == "expected"
    ensures JoinableDir(r.templateDir) ==> Split(r.expectedDir).0 == r.templateDir
    ensures naming.PerName? ==> r.templateName == name
    ensures naming.PerName? && ValidName(name) ==> JoinableDir(r.templateDir)
    ensures naming.PerName? && ValidName(name) && JoinableDir(inputDir) ==> Split(r.templateDir) == (inputDir, name)
    ensures naming.Single? ==> r.templateName == group && r.templateDir == inputDir
  {
    match naming
    case PerName =>
      var templateDir := Join(inputDir, name);
      ExpectedDirSplit(templateDir);
      if ValidName(name) then
        JoinedJoinable(inputDir, name);
        if JoinableDir(inputDir) then
          SplitJoin(inputDir, name);
          Assertion(name, LongName(naming, group, name), templateDir, ExpectedDir(templateDir))
        else
          Assertion(name, LongName(naming, group, name), templateDir, ExpectedDir(templateDir))
      else
        Assertion(name, LongName(naming, group, name), templateDir, ExpectedDir(templateDir))
    case Single =>
      ExpectedDirSplit(inputDir);
      Assertion(group, LongName(naming, group, name), inputDir, ExpectedDir(inputDir))
  }

  /** The test case one iteration of `_make_template_tests` creates. */
  function CaseFor(naming: Naming, group: string, name: string, inputDir: string): TestCase
  {
    TestCase(group + "TemplateTestCase", "test_" + LongName(naming, group, name),
             AssertionFor(naming, group, name, inputDir))
  }

  /** `_make_template_tests`: one test case per name, in the order of `names`,
      with the naming and assertion-building functions its caller passes. */
  method MakeTests(group: string, names: seq<string>, inputDir: string,
                   fullName: (string, string) -> string,
                   makeAssertion: (string, string, string) -> Assertion)
    returns (testCases: seq<TestCase>)
    ensures |testCases| == |names|
    ensures forall k :: 0 <= k < |names| ==>
              testCases[k] == TestCase(group + "TemplateTestCase", "test_" + fullName(group, names[k]),
                                       makeAssertion(group, names[k], inputDir))
  {
    var className := group + "TemplateTestCase";
    testCases := [];
    var i := 0;
    while i < |names|
      invariant i <= |names| && |testCases| == i
      invariant forall k :: 0 <= k < i ==>
                  testCases[k] == TestCase(className, "test_" + fullName(group, names[k]),
                                           makeAssertion(group, names[k], inputDir))
    {
      var methodName := "test_" + fullName(group, names[i]);
      testCases := testCases + [TestCase(className, methodName, makeAssertion(group, names[i], inputDir))];
      i := i + 1;
    }
  }

  /** `make_template_tests(group_name, parent_input_dir)`, with `listing` what
      `os.listdir(parent_input_dir)` returns. */
  method MakeTemplateTests(group: string, listing: seq<string>, parentDir: string)
    returns (testCases: seq<TestCase>)
    ensures |testCases| == |TemplateNames(listing)|
    ensures forall k :: 0 <= k < |testCases| ==>
              testCases[k] == CaseFor(PerName, group, TemplateNames(listing)[k], parentDir)
  {
    testCases := MakeTests(group, TemplateNames(listing), parentDir,
                           (g, n) => LongName(PerName, g, n),
                           (g, n, dir) => AssertionFor(PerName, g, n, dir));
  }

  /** `make_template_test(group_name, template_dir)`: the only test case built
      for a one-element name list. */
  method MakeTemplateTest(group: string, templateDir: string) returns (testCase: TestCase)
    ensures testCase.className == group + "TemplateTestCase"
    ensures testCase.methodName == "test_" + Lower(group)
    ensures testCase.assertion == Assertion(group, Lower(group), templateDir, Join(templateDir, "expected"))
  {
    var testCases := MakeTests(group, [""], templateDir,
                               (g, n) => LongName(Single, g, n),
                               (g, n, dir) => AssertionFor(Single, g, n, dir));
    testCase := testCases[0];
  }

  /** A listable name joined onto a directory path gives a path `Join` extends
      with one separator. */
  lemma JoinedJoinable(a: string, n: string)
    requires ValidName(n)
    ensures JoinableDir(Join(a, n))
  {
    var p := Join(a, n);
    assert p[|p| - 1] == n[|n| - 1];
    assert n[|n| - 1] in n;
  }

  /** Test cases built from different names get different test methods, so no
      `setattr` on the shared class replaces the method of an earlier case. */
  lemma MethodNamesDiffer(group: string, inputDir: string, a: string, b: string)
    requires a != b
    ensures CaseFor(PerName, group, a, inputDir).methodName != CaseFor(PerName, group, b, inputDir).methodName
  {
    var la, lb := LongName(PerName, group, a), LongName(PerName, group, b);
    var ma, mb := CaseFor(PerName, group, a, inputDir).methodName, CaseFor(PerName, group, b, inputDir).methodName;
    assert ma == "test_" + la && mb == "test_" + lb;
    assert ma[5..][|group| + 2..] == a && mb[5..][|group| + 2..] == b;
  }

  // ---------------------------------------------------------------------------
  // Checking a rendered tree against the expected one

  /** `SKIPPED_FILES`. */
  const SkippedFiles: seq<string> := [".DS_Store"]

  /** `_get_dcmp_attr(dcmp, attr_name)` on the attribute's value: the names
      that are not skipped. */
  function GetDcmpAttr(names: seq<string>): (r: seq<string>)
    ensures forall n :: n in r <==> n in names && n !in SkippedFiles
  {
    Filter(names, n => n !in SkippedFiles)
  }

  /** The skip filter works name by name and keeps the attribute's order. */
  lemma GetDcmpAttrOrder(a: seq<string>, b: seq<string>, n: string)
    ensures GetDcmpAttr(a + b) == GetDcmpAttr(a) + GetDcmpAttr(b)
    ensures GetDcmpAttr([n]) == if n in SkippedFiles then [] else [n]
  {
    FilterAppend(a, b, n => n !in SkippedFiles);
    assert [n][1..] == [];
  }

  /** The `dircmp` attributes `DIRCMP_ATTRS` names, in its order. */
  datatype Attr = LeftOnlyAttr | RightOnlyAttr | FunnyFilesAttr

  const DircmpAttrs: seq<Attr> := [LeftOnlyAttr, RightOnlyAttr, FunnyFilesAttr]

  /** `getattr(dcmp, attr_name)`. */
  function AttrValue(d: DirCmp, attr: Attr): seq<string>
    requires d.Valid()
  {
    match attr
    case LeftOnlyAttr => d.LeftOnly()
    case RightOnlyAttr => d.RightOnly()
    case FunnyFilesAttr => d.FunnyFiles()
  }

  /** Why a check failed: the `CompareError` of `_assert_empty`, the failed
      assertion of the fuzzy file comparison, or the `OSError` of listing a
      directory that is missing, not a directory or not readable. */
  datatype Failure =
    | NonEmpty(attr: Attr, expectedDir: string, actualDir: string)
    | FilesDiffer(fileName: string, expectedDir: string, actualDir: string)
    | NotListable(path: string)

  datatype Outcome = Pass | Fail(failure: Failure)

  /** The pairs `(actual_path, expected_path)` that `assertFilesEqual(...,
      fuzzy=True)` accepts. */
  type FuzzyMatch = iset<(string, string)>

  /** The fuzzy comparison accepts the file `n` of the two directories. */
  predicate Accepts(fuzzy: FuzzyMatch, expectedDir: string, actualDir: string, n: string)
  {
    (Join(actualDir, n), Join(expectedDir, n)) in fuzzy
  }

  /** `_assert_empty(dcmp, attr_name, dirs)`: fails exactly when the attribute
      holds a name that is not skipped. */
  function AssertEmpty(d: DirCmp, attr: Attr): (o: Outcome)
    requires d.Valid()
    ensures o == Pass <==> forall n :: n in AttrValue(d, attr) ==> n in SkippedFiles
    ensures o.Fail? ==> o.failure == NonEmpty(attr, d.left, d.right)
  {
    var names := GetDcmpAttr(AttrValue(d, attr));
    if names == [] then Pass
    else
      assert names[0] in names;
      Fail(NonEmpty(attr, d.left, d.right))
  }

  /** The fuzzy comparison of `names` in order, stopping at the first file it
      rejects. */
  function FirstMismatch(fuzzy: FuzzyMatch, expectedDir: string, actualDir: string, names: seq<string>): Outcome
  {
    if names == [] then Pass
    else if !Accepts(fuzzy, expectedDir, actualDir, names[0]) then Fail(FilesDiffer(names[0], expectedDir, actualDir))
    else FirstMismatch(fuzzy, expectedDir, actualDir, names[1..])
  }

  /** The comparison passes exactly when every file is accepted. */
  lemma {:induction false} FirstMismatchPasses(fuzzy: FuzzyMatch, expectedDir: string, actualDir: string, names: seq<string>)
    ensures FirstMismatch(fuzzy, expectedDir, actualDir, names) == Pass
        <==> forall k :: 0 <= k < |names| ==> Accepts(fuzzy, expectedDir, actualDir, names[k])
  {
    if names != [] {
      FirstMismatchPasses(fuzzy, expectedDir, actualDir, names[1..]);
      assert forall k :: 1 <= k < |names| ==> names[k] == names[1..][k - 1];
    }
  }

  /** When it fails, it names the first file the fuzzy comparison rejects. */
  lemma {:induction false} FirstMismatchFails(fuzzy: FuzzyMatch, expectedDir: string, actualDir: string, names: seq<string>)
    returns (k: nat)
    requires FirstMismatch(fuzzy, expectedDir, actualDir, names).Fail?
    ensures k < |names| && !Accepts(fuzzy, expectedDir, actualDir, names[k])
    ensures forall i :: 0 <= i < k ==> Accepts(fuzzy, expectedDir, actualDir, names[i])
    ensures FirstMismatch(fuzzy, expectedDir, actualDir, names) == Fail(FilesDiffer(names[k], expectedDir, actualDir))
  {
    if Accepts(fuzzy, expectedDir, actualDir, names[0]) {
      var j := FirstMismatchFails(fuzzy, expectedDir, actualDir, names[1..]);
      k := j + 1;
      assert forall i :: 1 <= i <= k ==> names[i] == names[1..][i - 1];
    } else {
      k := 0;
    }
  }

  /** What `_assert_diff_files_empty(dcmp, expected_dir, actual_dir)` comes
      to: reading `diff_files` first lists both directories of `dcmp`, its
      left one first, and fails on one that cannot be listed; then the fuzzy
      comparison of the differing files that are not skipped, in order. */
  function DiffFilesOutcome(fuzzy: FuzzyMatch, d: DirCmp, expectedDir: string, actualDir: string): Outcome
    requires d.Valid()
  {
    if d.ListError().Some? then Fail(NotListable(d.ListError().value))
    else FirstMismatch(fuzzy, expectedDir, actualDir, GetDcmpAttr(d.DiffFiles()))
  }

  /** `_assert_diff_files_empty(dcmp, expected_dir, actual_dir)`: the listing,
      then the differing files that are not skipped, taken from the front of
      the list one at a time. */
  method AssertDiffFilesEmpty(fuzzy: FuzzyMatch, d: DirCmp, expectedDir: string, actualDir: string)
    returns (o: Outcome)
    requires d.Valid()
    ensures o == DiffFilesOutcome(fuzzy, d, expectedDir, actualDir)
  {
    var listError := d.ListError();
    if listError.Some? {
      return Fail(NotListable(listError.value));
    }
    var fileNames := GetDcmpAttr(d.DiffFiles());
    ghost var initial := fileNames;
    assert DiffFilesOutcome(fuzzy, d, expectedDir, actualDir) == FirstMismatch(fuzzy, expectedDir, actualDir, initial);
    if fileNames == [] {
      return Pass;
    }
    var indexToExamine := 0;
    while fileNames != []
      invariant indexToExamine == 0
      invariant FirstMismatch(fuzzy, expectedDir, actualDir, initial)
             == FirstMismatch(fuzzy, expectedDir, actualDir, fileNames)
      decreases |fileNames|
    {
      var fileName := fileNames[indexToExamine];
      if !Accepts(fuzzy, expectedDir, actualDir, fileName) {
        return Fail(FilesDiffer(fileName, expectedDir, actualDir));
      }
      PopAccepted(fuzzy, expectedDir, actualDir, fileNames);
      fileNames := fileNames[..indexToExamine] + fileNames[indexToExamine + 1..];
    }
    o := Pass;
  }

  /** Taking an accepted file off the front of the list leaves the outcome of
      checking the rest unchanged. */
  lemma PopAccepted(fuzzy: FuzzyMatch, expectedDir: string, actualDir: string, names: seq<string>)
    requires names != [] && Accepts(fuzzy, expectedDir, actualDir, names[0])
    ensures FirstMismatch(fuzzy, expectedDir, actualDir, names[..0] + names[1..])
         == FirstMismatch(fuzzy, expectedDir, actualDir, names)
  {
    assert names[..0] + names[1..] == names[1..];
  }

  /** The `_assert_empty` calls on `attrs`, in order, stopping at the first
      failure. */
  function AttrsOutcome(d: DirCmp, attrs: seq<Attr>): Outcome
    requires d.Valid()
  {
    if attrs == [] then Pass
    else
      var o := AssertEmpty(d, attrs[0]);
      if o.Fail? then o else AttrsOutcome(d, attrs[1..])
  }

  /** The first failure among `outcomes`, or `Pass` when there is none: what a
      sequence of checks that stops at the first raised error comes to. */
  function FirstFailure(outcomes: seq<Outcome>): Outcome
  {
    if outcomes == [] then Pass
    else if outcomes[0].Fail? then outcomes[0]
    else FirstFailure(outcomes[1..])
  }

  /** What `_assert_dirs_equal` does with a `dircmp`: the listing and the
      differing files first,
      then `left_only`, `right_only` and `funny_files`, then each common
      subdirectory in order, stopping at the first failure. */
  function DirsEqualOutcome(fuzzy: FuzzyMatch, d: DirCmp): Outcome
    requires d.Valid()
    decreases d.leftDir, 1
  {
    var files := DiffFilesOutcome(fuzzy, d, d.left, d.right);
    if files.Fail? then files
    else
      var attrs := AttrsOutcome(d, DircmpAttrs);
      if attrs.Fail? then attrs
      else FirstFailure(SubdirOutcomes(fuzzy, d))
  }

  /** The outcome of the recursive call on each common subdirectory, in order. */
  function SubdirOutcomes(fuzzy: FuzzyMatch, d: DirCmp): (outcomes: seq<Outcome>)
    requires d.Valid()
    ensures |outcomes| == |d.CommonDirs()|
    decreases d.leftDir, 0
  {
    var dirs := d.CommonDirs();
    seq(|dirs|, k requires 0 <= k < |dirs| => DirsEqualOutcome(fuzzy, d.Subdir(dirs[k])))
  }

  /** `_assert_dirs_equal(expected_dir, actual_dir)` on the `dircmp` of the two
      directories, which the recursive calls build for each common
      subdirectory with its path joined onto both. */
  method AssertDirsEqual(fuzzy: FuzzyMatch, d: DirCmp) returns (o: Outcome)
    requires d.Valid()
    ensures o == DirsEqualOutcome(fuzzy, d)
    decreases d.leftDir, 2
  {
    o := AssertDiffFilesEmpty(fuzzy, d, d.left, d.right);
    if o.Fail? {
      return;
    }
    o := AssertAttrsEmpty(d, DircmpAttrs);
    if o.Fail? {
      return;
    }
    o := AssertSubdirsEqual(fuzzy, d);
  }

  /** The `_assert_empty` calls on each attribute of `attrs` (the loop over
      `DIRCMP_ATTRS`). */
  method AssertAttrsEmpty(d: DirCmp, attrs: seq<Attr>) returns (o: Outcome)
    requires d.Valid()
    ensures o == AttrsOutcome(d, attrs)
  {
    for i := 0 to |attrs|
      invariant AttrsOutcome(d, attrs) == AttrsOutcome(d, attrs[i..])
    {
      o := AssertEmpty(d, attrs[i]);
      if o.Fail? {
        return;
      }
      assert attrs[i..][1..] == attrs[i + 1..];
    }
    o := Pass;
  }

  /** The recursive calls on the common subdirectories, in order. */
  method AssertSubdirsEqual(fuzzy: FuzzyMatch, d: DirCmp) returns (o: Outcome)
    requires d.Valid()
    ensures o == FirstFailure(SubdirOutcomes(fuzzy, d))
    decreases d.leftDir, 1
  {
    var commonDirs := d.CommonDirs();
    ghost var outcomes := SubdirOutcomes(fuzzy, d);
    if commonDirs == [] {
      return Pass;
    }
    for i := 0 to |commonDirs|
      invariant FirstFailure(outcomes) == FirstFailure(outcomes[i..])
    {
      o := AssertDirsEqual(fuzzy, d.Subdir(commonDirs[i]));
      assert outcomes[i..][0] == o;
      if o.Fail? {
        return;
      }
      assert outcomes[i..][1..] == outcomes[i + 1..];
    }
    o := Pass;
  }

  /** The check from the two root paths, with the nodes found there: a root
      that cannot be listed fails first (the expected one before the actual
      one), otherwise the trees are compared with `dircmp`'s default names
      left out. */
  function DirsEqualAt(fuzzy: FuzzyMatch, expectedDir: string, expectedTree: Option<Node>,
                       actualDir: string, actualTree: Option<Node>): Outcome
  {
    if !DirDiff.Listable(expectedTree) then Fail(NotListable(expectedDir))
    else if !DirDiff.Listable(actualTree) then Fail(NotListable(actualDir))
    else DirsEqualOutcome(fuzzy, MakeDirCmp(expectedDir, actualDir, expectedTree.value, actualTree.value, None))
  }

  method AssertDirsEqualAt(fuzzy: FuzzyMatch, expectedDir: string, expectedTree: Option<Node>,
                           actualDir: string, actualTree: Option<Node>) returns (o: Outcome)
    ensures o == DirsEqualAt(fuzzy, expectedDir, expectedTree, actualDir, actualTree)
  {
    if !DirDiff.Listable(expectedTree) {
      return Fail(NotListable(expectedDir));
    }
    if !DirDiff.Listable(actualTree) {
      return Fail(NotListable(actualDir));
    }
    var d := MakeDirCmp(expectedDir, actualDir, expectedTree.value, actualTree.value, None);
    o := AssertDirsEqual(fuzzy, d);
  }

  // ---------------------------------------------------------------------------
  // What the check accepts

  /** One level agrees: both directories can be listed, every name found on
      one side only, and every common file `dircmp` could not compare, is a
      skipped file, and the fuzzy comparison accepts every common file
      `dircmp` found different that is not skipped. */
  predicate LevelAgrees(fuzzy: FuzzyMatch, d: DirCmp)
    requires d.Valid()
  {
    d.ListError().None? &&
    (forall n :: n in d.DiffSet() && n !in SkippedFiles ==> Accepts(fuzzy, d.left, d.right, n)) &&
    (forall n :: n in d.LeftNames() && n !in d.RightNames() ==> n in SkippedFiles) &&
    (forall n :: n in d.RightNames() && n !in d.LeftNames() ==> n in SkippedFiles) &&
    (forall n :: n in d.FunnySet() ==> n in SkippedFiles)
  }

  /** Every level reached through common subdirectories agrees. */
  predicate TreesAgree(fuzzy: FuzzyMatch, d: DirCmp)
    requires d.Valid()
    decreases d.leftDir
  {
    LevelAgrees(fuzzy, d) && forall n :: n in d.DirSet() ==> TreesAgree(fuzzy, d.Subdir(n))
  }

  /** The differing-files check passes exactly when both directories can be
      listed and the fuzzy comparison accepts every differing file that is not
      skipped; a directory that cannot be listed fails it, the left one first. */
  lemma DiffFilesPass(fuzzy: FuzzyMatch, d: DirCmp)
    requires d.Valid()
    ensures DiffFilesOutcome(fuzzy, d, d.left, d.right) == Pass
        <==> d.ListError().None? &&
             forall n :: n in d.DiffSet() && n !in SkippedFiles ==> Accepts(fuzzy, d.left, d.right, n)
    ensures d.ListError().Some? ==> DiffFilesOutcome(fuzzy, d, d.left, d.right) == Fail(NotListable(d.ListError().value))
  {
    var names := GetDcmpAttr(d.DiffFiles());
    FirstMismatchPasses(fuzzy, d.left, d.right, names);
    if forall k :: 0 <= k < |names| ==> Accepts(fuzzy, d.left, d.right, names[k]) {
      forall n | n in d.DiffSet() && n !in SkippedFiles ensures Accepts(fuzzy, d.left, d.right, n) {
        assert n in names;
      }
    }
  }

  /** The `_assert_empty` calls on `attrs` pass exactly when each does. */
  lemma {:induction false} AttrsOutcomePass(d: DirCmp, attrs: seq<Attr>)
    requires d.Valid()
    ensures AttrsOutcome(d, attrs) == Pass <==> forall k :: 0 <= k < |attrs| ==> AssertEmpty(d, attrs[k]) == Pass
  {
    if attrs != [] {
      AttrsOutcomePass(d, attrs[1..]);
      assert forall k :: 1 <= k < |attrs| ==> attrs[k] == attrs[1..][k - 1];
    }
  }

  /** The names each attribute lists, as a set. */
  function AttrSet(d: DirCmp, attr: Attr): set<string>
    requires d.Valid()
  {
    match attr
    case LeftOnlyAttr => d.LeftNames() - d.RightNames()
    case RightOnlyAttr => d.RightNames() - d.LeftNames()
    case FunnyFilesAttr => d.FunnySet()
  }

  /** `_assert_empty` passes exactly when every name the attribute lists is a
      skipped file. */
  lemma AssertEmptyPass(d: DirCmp, attr: Attr)
    requires d.Valid()
    ensures AssertEmpty(d, attr) == Pass <==> forall n :: n in AttrSet(d, attr) ==> n in SkippedFiles
  {
    assert forall n :: n in AttrValue(d, attr) <==> n in AttrSet(d, attr);
  }

  /** The three `_assert_empty` calls pass exactly when nothing but skipped
      files is found on one side only or could not be compared. */
  lemma AttrsPass(d: DirCmp)
    requires d.Valid()
    ensures AttrsOutcome(d, DircmpAttrs) == Pass
        <==> (forall n :: n in d.LeftNames() && n !in d.RightNames() ==> n in SkippedFiles) &&
             (forall n :: n in d.RightNames() && n !in d.LeftNames() ==> n in SkippedFiles) &&
             (forall n :: n in d.FunnySet() ==> n in SkippedFiles)
  {
    AttrsOutcomePass(d, DircmpAttrs);
    AssertEmptyPass(d, LeftOnlyAttr);
    AssertEmptyPass(d, RightOnlyAttr);
    AssertEmptyPass(d, FunnyFilesAttr);
    assert DircmpAttrs[0] == LeftOnlyAttr && DircmpAttrs[1] == RightOnlyAttr && DircmpAttrs[2] == FunnyFilesAttr;
  }

  /** One level's own checks pass exactly when the level agrees. */
  lemma LevelPass(fuzzy: FuzzyMatch, d: DirCmp)
    requires d.Valid()
    ensures DiffFilesOutcome(fuzzy, d, d.left, d.right) == Pass
            && AttrsOutcome(d, DircmpAttrs) == Pass
        <==> LevelAgrees(fuzzy, d)
  {
    DiffFilesPass(fuzzy, d);
    AttrsPass(d);
  }

  /** Every common subdirectory, by position or by name. */
  lemma AllSubdirs(fuzzy: FuzzyMatch, d: DirCmp)
    requires d.Valid()
    ensures (forall k :: 0 <= k < |d.CommonDirs()| ==> TreesAgree(fuzzy, d.Subdir(d.CommonDirs()[k])))
        <==> forall n :: n in d.DirSet() ==> TreesAgree(fuzzy, d.Subdir(n))
  {
    var dirs := d.CommonDirs();
    if forall k :: 0 <= k < |dirs| ==> TreesAgree(fuzzy, d.Subdir(dirs[k])) {
      forall n | n in d.DirSet() ensures TreesAgree(fuzzy, d.Subdir(n)) {
        var k :| 0 <= k < |dirs| && dirs[k] == n;
      }
    }
  }

  /** A sequence of checks passes exactly when each check passes. */
  lemma {:induction false} FirstFailurePass(outcomes: seq<Outcome>)
    ensures FirstFailure(outcomes) == Pass <==> forall k :: 0 <= k < |outcomes| ==> outcomes[k] == Pass
  {
    if outcomes != [] {
      FirstFailurePass(outcomes[1..]);
      assert forall k :: 1 <= k < |outcomes| ==> outcomes[k] == outcomes[1..][k - 1];
    }
  }

  /** `_assert_dirs_equal` returns normally exactly when the trees agree at
      every level reached through common subdirectories. */
  lemma {:induction false} DirsEqualPass(fuzzy: FuzzyMatch, d: DirCmp)
    requires d.Valid()
    ensures DirsEqualOutcome(fuzzy, d) == Pass <==> TreesAgree(fuzzy, d)
    decreases d.leftDir
  {
    var dirs := d.CommonDirs();
    var outcomes := SubdirOutcomes(fuzzy, d);
    LevelPass(fuzzy, d);
    FirstFailurePass(outcomes);
    forall k | 0 <= k < |dirs|
      ensures outcomes[k] == Pass <==> TreesAgree(fuzzy, d.Subdir(dirs[k]))
    {
      DirsEqualPass(fuzzy, d.Subdir(dirs[k]));
    }
    AllSubdirs(fuzzy, d);
  }

  /** From the two root paths: a root that cannot be listed fails the check,
      the expected one first; otherwise the check passes exactly when the
      trees agree. */
  lemma DirsEqualAtPass(fuzzy: FuzzyMatch, expectedDir: string, expectedTree: Option<Node>,
                        actualDir: string, actualTree: Option<Node>)
    ensures var o := DirsEqualAt(fuzzy, expectedDir, expectedTree, actualDir, actualTree);
            !DirDiff.Listable(expectedTree) ==> o == Fail(NotListable(expectedDir))
    ensures var o := DirsEqualAt(fuzzy, expectedDir, expectedTree, actualDir, actualTree);
            DirDiff.Listable(expectedTree) && !DirDiff.Listable(actualTree) ==> o == Fail(NotListable(actualDir))
    ensures var o := DirsEqualAt(fuzzy, expectedDir, expectedTree, actualDir, actualTree);
            DirDiff.Listable(expectedTree) && DirDiff.Listable(actualTree) ==>
              (o == Pass <==> TreesAgree(fuzzy, MakeDirCmp(expectedDir, actualDir, expectedTree.value, actualTree.value, None)))
  {
    if DirDiff.Listable(expectedTree) && DirDiff.Listable(actualTree) {
      DirsEqualPass(fuzzy, MakeDirCmp(expectedDir, actualDir, expectedTree.value, actualTree.value, None));
    }
  }

  /** A common file `dircmp` found shallow-equal (same size and modification
      time) is in none of the lists the check examines, whatever its bytes. */
  lemma ShallowEqualUnchecked(d: DirCmp, n: string)
    requires d.Valid() && n in d.FileSet()
    requires |d.leftDir.entries[n].content| == |d.rightDir.entries[n].content|
    requires d.leftDir.entries[n].mtime == d.rightDir.entries[n].mtime
    ensures n in d.SameFiles()
    ensures n !in d.DiffFiles() && n !in d.FunnyFiles() && n !in d.LeftOnly() && n !in d.RightOnly()
    ensures n !in d.CommonDirs()
  {
    Partition(d, n);
  }

  /** A common name that is a directory on one side and not on the other is in
      none of the lists the check examines. */
  lemma CommonFunnyUnchecked(d: DirCmp, n: string)
    requires d.Valid() && n in d.CommonFunny()
    ensures n !in d.DiffFiles() && n !in d.FunnyFiles() && n !in d.LeftOnly() && n !in d.RightOnly()
    ensures n !in d.CommonDirs()
  {
    Partition(d, n);
  }
}
