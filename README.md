# Recursive directory comparison in Molt, modelled in Dafny

Molt renders project templates. Its tests compare a rendered directory tree
with an expected one, and it relies on two recursive comparisons of directory
trees.

- **`Differ`** (`molt/general/dirdiff.py`) walks two trees level by level.
  - It sorts every relative path it finds into one of three lists:
    - names found only on the left;
    - names found only on the right;
    - common files that differ.
  - File equality is either a full byte comparison or a caller-supplied
    `match(path1, path2)`.
  - The three lists are accumulated in place across the recursion and then
    sorted.
- **The template-test validator** (`molt/test/harness/templatetest.py`) checks
  that an actual output tree agrees with an expected one.
  - It drops skip-listed names.
  - It fuzzy-compares the files `dircmp` found different.
  - It requires three other classification lists to be empty.
  - It recurses into the common subdirectories.
  - The same file turns a directory listing into named test cases.

The model works on an in-memory tree:
`Node = File(content, mtime, readable) | Dir(map<string, Node>, listable) | Special`.
The one-level classification that Python 2's `filecmp.dircmp` computes is a
value (`FileCmp.DirCmp`), with these lists:

- `left_only` and `right_only`;
- `common_dirs`, `common_files` and `common_funny`;
- `same_files`, `diff_files` and `funny_files`.

It applies the library's shallow `(size, mtime)` rule and its default
`ignore` and `hide` lists.

## Files

- `wrappers.dfy`: `Option` and `Result`.
- `order.dfy`: lexicographic string order, insertion sort, sorted listing of a
  set, duplicate-free sequences.
- `paths.dfy`:
  - `os.path.join` and `os.path.split` (POSIX);
  - rendering a name sequence as a relative path;
  - `str.lower`, `str.startswith`;
  - an order-keeping `filter`.
- `filecmp.dfy`: the tree, `filecmp`'s shallow comparison and `dircmp`'s
  classification of one level.
- `dirdiff.dfy`:
  - the pure specification of `Differ` (`Walk`, `DiffResult`);
  - the classes `Results` (the three mutable lists) and `Differ`, whose
    methods are proved to compute that specification.
- `dirdiff_props.dfy`:
  - `Reported`, an independent level-by-level description of which paths
    belong in which list;
  - soundness and completeness of the walk against `Reported`;
  - exactly when the walk raises.
- `dirdiff_theorems.dfy`: what `diff` promises its caller:
  - errors;
  - sortedness;
  - soundness and completeness;
  - no duplicates and disjoint lists;
  - ignored and hidden names never reported;
  - comparing a tree with itself;
  - comparing the trees the other way round.
- `templatetest.dfy`:
  - `make_expected_dir`, the template-name filter and the test-case builders;
  - `_get_dcmp_attr`, `_assert_empty`, `_assert_diff_files_empty` and
    `_assert_dirs_equal`;
  - a characterisation of when the validator passes.

## Model

| member | source | states |
|---|---|---|
| DirDiff.ContentsMatchAt | molt/general/dirdiff.py:45-50 | the full byte comparison says "same" exactly for two readable regular files with equal bytes; it raises an IOError, naming the file it cannot open, exactly when both are regular files of equal size and one cannot be opened |
| DirDiff.IsSame | molt/general/dirdiff.py:70-76 | `_is_same` joins the name onto both directories of the `dircmp`: under the byte comparison it says "same" iff both files are readable with equal bytes, and only it can raise (an IOError); under a custom `match` it says "same" iff `match` accepts the two joined paths |
| DirDiff.FilterDifferent | molt/general/dirdiff.py:94-110 | keeps exactly the names whose comparison says "not same"; when a comparison raises, the filter raises the error of the first name whose comparison raises, after every earlier name compared without error |
| DirDiff.Prefixed | molt/general/dirdiff.py:117-120 | one path per name, in order, each the name joined under the level's leading path |
| DirDiff.Results.constructor | molt/general/dirdiff.py:130 | the three result lists start empty |
| DirDiff.Results.SortEach | molt/general/dirdiff.py:136-137 | each of the three lists is replaced by its sorted permutation, in place |
| DirDiff.Differ.constructor | molt/general/dirdiff.py:55-68 | keeps `match` and `ignore`; the comparison used is the byte comparison when no `match` is given, and `match` otherwise |
| DirDiff.Differ.LevelDiff | molt/general/dirdiff.py:97-111 | reading `diff_files` lists both directories first and raises OSError for the first one that cannot be listed (left first); then it copies `diff_files`, re-filters it only under a custom `match`, and extends it with the `same_files` that compare different; the result equals the level specification |
| DirDiff.Differ.WalkInto | molt/general/dirdiff.py:78-120 | recursion over the common subdirectories that extends the shared result lists in place: it raises exactly when the specification walk fails, with the same error, and otherwise leaves the old contents followed by the walk's three lists |
| DirDiff.Differ.WalkSubdirsInto | molt/general/dirdiff.py:113-115 | the loop of recursive calls over the common subdirectories: it raises exactly when walking them in order fails, with that error, and otherwise leaves the old contents followed by what they report, in order |
| DirDiff.Differ.Diff | molt/general/dirdiff.py:122-139 | builds the root comparison (OSError for a root that cannot be listed, left first), walks it into fresh lists, sorts each list and returns exactly `DiffResult` |
| DirDiff.WalkStep | molt/general/dirdiff.py:113-120 | when nothing fails, a level's result is everything found below it, followed by its own three lists with its prefix |
| DirDiff.WalkStopsBelow | molt/general/dirdiff.py:113-115 | an error raised in a subdirectory is the error of the whole level |
| DirDiff.SubdirsAdvance | molt/general/dirdiff.py:113-115 | when the subdirectories walked so far and the next one succeed, the next one's lists are appended to theirs |
| DirDiff.SubdirsStop | molt/general/dirdiff.py:113-115 | when the subdirectories walked so far succeed and the next one raises, that error is the outcome of the whole loop |
| DirDiff.PrefixErrorStops | molt/general/dirdiff.py:113-115 | once one subdirectory raises, the subdirectories after it do not change the outcome |
| DirDiff.AppendAssoc | molt/general/dirdiff.py:117-120 | extending the lists by one result and then another equals extending them by the two together |
| DirDiffProperties.LevelMembers | molt/general/dirdiff.py:97-111 | a level reports as differing exactly the comparable common files whose bytes differ (no `match`) or whose two paths `match` rejects, each once |
| DirDiffProperties.LevelDistinct | molt/general/dirdiff.py:97-111 | a level's list of differing names has no duplicates |
| DirDiffProperties.FilterDifferentDistinct | molt/general/dirdiff.py:104-110 | filtering a duplicate-free name list keeps it duplicate-free |
| DirDiffProperties.FilterFails | molt/general/dirdiff.py:104-110 | the filter raises iff comparing some name raises |
| DirDiffProperties.LevelErrors | molt/general/dirdiff.py:97-111 | a level raises iff one of its two directories cannot be listed, or no `match` was given and a shallow-equal common file cannot be opened; listing fails first, with an OSError naming the left directory if it is unlistable and the right one otherwise; any other error is an IOError |
| DirDiffProperties.WalkGet | molt/general/dirdiff.py:113-120 | each list of a level is the subdirectories' part followed by the level's own prefixed names |
| DirDiffProperties.SubdirsGet | molt/general/dirdiff.py:113-115 | walking one more subdirectory appends its lists to what the earlier subdirectories gave |
| DirDiffProperties.SubdirsStep | molt/general/dirdiff.py:113-115 | walking the first `count` subdirectories succeeds iff the first `count - 1` do and the last one does |
| DirDiffProperties.SubdirsStepError | molt/general/dirdiff.py:113-115 | the error after one more subdirectory is the earlier error, or else that subdirectory's error |
| DirDiffProperties.LevelListMembers | molt/general/dirdiff.py:117-120 | a level's `left_only` / `right_only` / differing list holds exactly the names on the left only / the right only / common files reported different |
| DirDiffProperties.SubdirsIncludes | molt/general/dirdiff.py:113-115 | every path a walked subdirectory reports is kept in the accumulated lists |
| DirDiffProperties.SubdirsOrigin | molt/general/dirdiff.py:113-115 | every accumulated path comes from one walked subdirectory |
| DirDiffProperties.WalkHasLevel | molt/general/dirdiff.py:117-120 | a name the level contributes is reported with the level's prefix |
| DirDiffProperties.WalkHasBelow | molt/general/dirdiff.py:113-120 | whatever a common subdirectory reports, under its extended prefix, is reported by its parent |
| DirDiffProperties.PrefixedOrigin | molt/general/dirdiff.py:117-120 | every prefixed path is some name joined under the prefix |
| DirDiffProperties.WalkLevelOrigin | molt/general/dirdiff.py:117-120 | a reported path that no subdirectory gave is one of the level's names under its prefix |
| DirDiffProperties.WalkBelowOrigin | molt/general/dirdiff.py:113-115 | a path a subdirectory gave comes from one common subdirectory walked under its own name |
| DirDiffProperties.WalkComplete | molt/general/dirdiff.py:78-120 | every name sequence `Reported` for a list appears in that list, rendered under the leading path |
| DirDiffProperties.ReportedCons | molt/general/dirdiff.py:113-115 | a name sequence reported in a common subdirectory, with that subdirectory's name in front, is reported for its parent |
| DirDiffProperties.WalkSound | molt/general/dirdiff.py:78-120 | every path in a list is the rendering of a name sequence `Reported` for that list |
| DirDiffProperties.CustomComparable | molt/general/dirdiff.py:99-104 | with a custom `match` no comparison can raise: a tree is comparable iff every directory the walk reaches can be listed |
| DirDiffProperties.WalkOkIff | molt/general/dirdiff.py:78-120 | the walk succeeds iff every directory it reaches can be listed and no level has an unopenable shallow-equal file under the byte comparison |
| DirDiffProperties.SubdirsOk | molt/general/dirdiff.py:113-115 | when every subdirectory is comparable (listable throughout, and with openable shallow-equal files under the byte comparison), walking them succeeds |
| DirDiffProperties.WalkErrors | molt/general/dirdiff.py:78-120 | the recursion raises an IOError only under the byte comparison, and an OSError only when some directory it reaches cannot be listed |
| DirDiffProperties.SubdirsErrors | molt/general/dirdiff.py:113-115 | the same for the loop over the common subdirectories: IOError only under the byte comparison, OSError only when a directory below cannot be listed |
| DirDiffTheorems.RootCmp | molt/general/dirdiff.py:132 | the root `dircmp` is a valid classification of the two listable root directories, under their paths |
| DirDiffTheorems.DiffErrors | molt/general/dirdiff.py:122-134 | `diff` raises OSError naming the first root that cannot be listed (left first); with both roots listable, it succeeds iff the tree is comparable, and an error is an IOError only under the byte comparison and an OSError only when a directory below cannot be listed |
| DirDiffTheorems.CustomFailsOnlyListing | molt/general/dirdiff.py:97-111 | with a custom `match`, `diff` returns iff both roots and every directory the walk reaches can be listed, and any error is an OSError |
| DirDiffTheorems.DiffSorted | molt/general/dirdiff.py:130-139 | each returned list is sorted ascending and is a permutation of what the walk accumulated |
| DirDiffTheorems.DiffSound | molt/general/dirdiff.py:78-139 | every returned path is the relative path (top level without prefix) of a name sequence that `Reported` puts in that list |
| DirDiffTheorems.DiffComplete | molt/general/dirdiff.py:78-139 | every name sequence `Reported` for a list appears in that list as its relative path |
| DirDiffTheorems.ReportedShape | molt/general/dirdiff.py:113-120 | a reported name sequence is non-empty and each name is a valid entry that `dircmp` shows |
| DirDiffTheorems.ReportedExclusive | molt/general/dirdiff.py:117 | a name sequence is reported for at most one of the three lists |
| DirDiffTheorems.ReportedNotFunny | molt/general/dirdiff.py:117 | names in `common_funny` or `funny_files` are never reported |
| DirDiffTheorems.LevelListDistinct | molt/general/dirdiff.py:117-120 | each list of one level is duplicate-free |
| DirDiffTheorems.PrefixedDistinct | molt/general/dirdiff.py:119 | joining distinct valid names under the same prefix gives distinct paths |
| DirDiffTheorems.BelowLevelSeparate | molt/general/dirdiff.py:113-120 | no path a subdirectory reports equals one of the level's own paths |
| DirDiffTheorems.SubdirsSeparate | molt/general/dirdiff.py:113-115 | two different common subdirectories never report the same path |
| DirDiffTheorems.SubdirsDistinct | molt/general/dirdiff.py:113-115 | the lists accumulated over the subdirectories are duplicate-free |
| DirDiffTheorems.WalkDistinct | molt/general/dirdiff.py:78-120 | every list the walk produces is duplicate-free |
| DirDiffTheorems.DiffDistinct | molt/general/dirdiff.py:97-139 | each returned list is duplicate-free |
| DirDiffTheorems.DiffDisjoint | molt/general/dirdiff.py:97-139 | no path is in two of the returned lists |
| DirDiffTheorems.DiffShown | molt/general/dirdiff.py:122-139 | no component of a returned path is an ignored name (the given list, or `dircmp`'s default when none) or `.` / `..` |
| DirDiffTheorems.ReportedSwapped | molt/general/dirdiff.py:97-120 | with the two trees swapped, a name sequence is reported for `left_only` iff it was reported for `right_only`, and the other way round; under the byte comparison it is reported as differing iff it was before |
| DirDiffTheorems.DiffSwappedList | molt/general/dirdiff.py:122-139 | when `diff(a, b)` and `diff(b, a)` both return, each one-sided list of one is the opposite one-sided list of the other, and under the byte comparison the differing files are the same |
| DirDiffTheorems.DiffSymmetric | molt/general/dirdiff.py:122-139 | `diff(a, b)`'s `left_only` is `diff(b, a)`'s `right_only` and the other way round, and with no `match` both return the same differing files, when both calls return |
| StringOrder.SortedSameElements | molt/general/dirdiff.py:137 | two sorted lists without repeats that hold the same paths are equal |
| DirDiffTheorems.SelfNotReported | molt/general/dirdiff.py:97-120 | a tree compared with itself reports no name sequence |
| DirDiffTheorems.SelfComparable | molt/general/dirdiff.py:45-50 | a tree whose directories can all be listed, compared with itself, never raises (given readable files or a `match` accepting a path paired with itself) |
| DirDiffTheorems.DiffSelf | molt/general/dirdiff.py:122-139 | `diff(d, d)` on a directory whose directories can all be listed returns three empty lists, given readable files or a `match` that accepts a path paired with itself |
| StringOrder.Sort | molt/general/dirdiff.py:137 | `list.sort` on strings: the result is sorted and a permutation of the input |
| StringOrder.SortedPermutationUnique | molt/general/dirdiff.py:137 | two sorted permutations of each other are equal |
| FileCmp.ShallowCmp | molt/general/dirdiff.py:106-110 | `dircmp`'s shallow comparison: equal size and mtime mean "same" whatever the bytes; different sizes mean "different"; "uncomparable" iff sizes agree, mtimes differ and one file cannot be opened; otherwise "same" iff the bytes are equal, so "different" implies the bytes differ |
| FileCmp.DirCmp.ListError | molt/general/dirdiff.py:97 | the first read of a `dircmp` list lists the left directory, then the right one: no error iff both can be listed, otherwise an OSError naming the left one if it cannot be listed and the right one otherwise |
| TemplateTest.ExpectedDirSplit | molt/test/harness/templatetest.py:62-63 | the expected directory is the template directory's child named `expected` |
| TemplateTest.TemplateNames | molt/test/harness/templatetest.py:91-93 | keeps exactly the listed names that do not start with `.` |
| TemplateTest.TemplateNamesOrder | molt/test/harness/templatetest.py:93 | the filter keeps the listing's order: it distributes over concatenation and keeps or drops each single name |
| TemplateTest.TemplateNamesDistinct | molt/test/harness/templatetest.py:91-93 | a listing without duplicates gives template names without duplicates |
| TemplateTest.LongName | molt/test/harness/templatetest.py:68-96 | both `make_full_name` closures start with the lower-cased group; the per-template one then has `__` and the template's name, which can be read back from the end, and the single-template one has nothing after the group |
| TemplateTest.AssertionFor | molt/test/harness/templatetest.py:71-104 | both `make_assert_template` closures: the long name is `make_full_name`'s; the expected directory is the template directory's `expected` entry; a listed template's directory is its entry under the parent (it splits back into the parent and the name) and its name is the listed name; a single template uses the group name and the given directory |
| TemplateTest.MakeTests | molt/test/harness/templatetest.py:112-130 | for any naming function `make_full_name` and assertion builder `make_assert_template` passed in: exactly one test case per name, in order, with class `group + "TemplateTestCase"`, method `"test_" + make_full_name(group, name)` and the assertion `make_assert_template(group, name, input_dir)` |
| TemplateTest.MakeTemplateTests | molt/test/harness/templatetest.py:86-109 | one test case per non-dot name, in listing order, method `"test_" + group.lower() + "__" + name`, template directory `parent/name` and expected directory `parent/name/expected` |
| TemplateTest.MakeTemplateTest | molt/test/harness/templatetest.py:66-83 | the single test case: method `"test_" + group.lower()`, the given template directory and its `expected` child |
| TemplateTest.MethodNamesDiffer | molt/test/harness/templatetest.py:95-96 | different template names give different method names, so no `setattr` overwrites another test |
| TemplateTest.GetDcmpAttr | molt/test/harness/templatetest.py:174-178 | keeps exactly the names not in `SKIPPED_FILES` |
| TemplateTest.GetDcmpAttrOrder | molt/test/harness/templatetest.py:176 | the filter keeps order: it distributes over concatenation and drops exactly the skipped single names |
| TemplateTest.AssertEmpty | molt/test/harness/templatetest.py:180-200 | passes iff every name of the attribute is a skipped file; otherwise fails naming the attribute and the (expected, actual) pair |
| TemplateTest.FirstMismatchPasses | molt/test/harness/templatetest.py:235-240 | the file loop passes iff the fuzzy comparison accepts every file |
| TemplateTest.FirstMismatchFails | molt/test/harness/templatetest.py:235-240 | when it fails, it fails on the first rejected file, after accepting every file before it |
| TemplateTest.AssertDiffFilesEmpty | molt/test/harness/templatetest.py:220-240 | reading `diff_files` fails first on a directory that cannot be listed (left, i.e. expected, first); then the pop-from-the-front loop over the filtered `diff_files` gives the outcome of checking them in list order |
| TemplateTest.AssertDirsEqual | molt/test/harness/templatetest.py:247-262 | the listing and the differing files first, then `left_only`, `right_only` and `funny_files`, then each common subdirectory in order; the first failure is the outcome |
| TemplateTest.AssertAttrsEmpty | molt/test/harness/templatetest.py:251-252 | the `_assert_empty` loop over the attributes gives the outcome of checking them in order, stopping at the first failure |
| TemplateTest.AssertSubdirsEqual | molt/test/harness/templatetest.py:254-262 | the loop over `common_dirs` (returning at once when there are none) gives the first failure among the recursive checks of the subdirectories, in order |
| TemplateTest.AssertDirsEqualAt | molt/test/harness/templatetest.py:242-248 | a root that cannot be listed fails first (the expected root before the actual root); otherwise it compares the two roots with `dircmp`'s defaults, where a directory below that cannot be listed fails its level |
| TemplateTest.DiffFilesPass | molt/test/harness/templatetest.py:229-240 | the differing-files check passes iff both directories can be listed and the fuzzy comparison accepts every non-skipped file `dircmp` found different; an unlistable directory fails it, the left one first |
| TemplateTest.AttrsOutcomePass | molt/test/harness/templatetest.py:251-252 | the attribute checks pass iff each one passes |
| TemplateTest.AssertEmptyPass | molt/test/harness/templatetest.py:180-191 | an attribute check passes iff every name in the attribute's set is skipped |
| TemplateTest.AttrsPass | molt/test/harness/templatetest.py:251-252 | the three attribute checks pass iff every one-sided name and every uncomparable common file is skipped |
| TemplateTest.LevelPass | molt/test/harness/templatetest.py:248-252 | one level's checks pass iff that level agrees: both directories can be listed, and every differing, one-sided or uncomparable name is accepted or skipped |
| TemplateTest.AllSubdirs | molt/test/harness/templatetest.py:259-262 | every common subdirectory agrees iff every one in `common_dirs` order does |
| TemplateTest.FirstFailurePass | molt/test/harness/templatetest.py:259-262 | a run of checks that stops at the first failure passes iff every check in it passes |
| TemplateTest.DirsEqualPass | molt/test/harness/templatetest.py:242-262 | `_assert_dirs_equal` returns normally iff every level reached through common subdirectories can be listed and agrees |
| TemplateTest.DirsEqualAtPass | molt/test/harness/templatetest.py:242-262 | from the two root paths: the unlistable root fails first, otherwise the check passes iff every level can be listed and agrees |
| TemplateTest.ShallowEqualUnchecked | molt/test/harness/templatetest.py:229-240 | a common file with equal size and mtime is in `same_files` and in no list the validator examines, whatever its bytes |
| TemplateTest.CommonFunnyUnchecked | molt/test/harness/templatetest.py:56 | a type-mismatch name (`common_funny`) is in no list the validator examines |

## Left out

- Filesystem reads: the two roots and everything below them are an in-memory `Node` value.
  - A root that is missing or not a directory is an `Option<Node>` that is `None` or not a `Dir`; a directory `os.listdir` cannot read (for want of permission) is a `Dir` whose `listable` flag is false. Python 2's `dircmp` lists its two directories on the first read of any of its lists, so the model raises the listing error at that point of each level.
  - `diff` never changes the trees, because they are values.
  - Modification times are plain integers.
  - `Special` stands for anything that is neither a regular file nor a directory to `stat`.
- The order in which Python 2 `dircmp` produces its lists, and in which `_diff` iterates `dcmp.subdirs`, is dictionary order and unspecified. The model lists each one in ascending name order and walks the subdirectories in `common_dirs` order.
  - Only `diff`'s unsorted accumulation depends on this, along with which failure the validator or `diff` meets first when there are several. `diff`'s returned lists are sorted, so they do not depend on it.
- A custom `match` is modelled as the set of `(path1, path2)` pairs it accepts. It is taken to be total and side-effect free.
- The fuzzy file comparison behind `assertFilesEqual(..., fuzzy=True)` is modelled the same way, as the set of `(actual, expected)` pairs it accepts.
  - `AssertFileMixin` is not part of this model, and neither is text decoding of the files.
- Failure messages: `_make_compare_message_format`, `_raise_compare_error` and the text `_assert_empty` and `_assert_files_equal` build. A failure is a `Failure` value naming the attribute or file and the two directories.
- `_assert_template` and template rendering are not part of this model. The test-case builders record, as an `Assertion` value, the arguments the generated test method would pass to it.
- Dynamic class creation (`type`, `setattr`) is reduced to a `TestCase` value holding the class name and the method name. `TemplateTest.MethodNamesDiffer` shows that no method is overwritten.
  - The `[None]` placeholder name of `make_template_test` is modelled as `""`. The single-test naming never reads it.
- `os.listdir` of the template parent is a parameter (`listing`) of `TemplateTest.MakeTemplateTests`.
- When `diff` raises, the partially filled lists are discarded; only the error is modelled.
  - `DirDiff.Differ.WalkInto` states the in-place contents only for a walk that returns.
- One might expect type mismatches (a name that is a file on one side and a directory on the other) among the differing files. `_diff` drops them instead: it never reports `common_funny` names (`molt/general/dirdiff.py:117`), and `DirDiffTheorems.ReportedNotFunny` states this.
- `DirDiff.ContentsMatchAt`: a `Special` node stands for both a node `os.stat` resolves (a device, a socket), where `filecmp.cmp` returns false, and a dangling link, where its first `os.stat` raises an OSError. The model gives `Ok(false)` for both, so the OSError of a dangling link is not modelled. No caller can meet that case: `_is_same` only receives names from `common_files`, which are regular files on both sides (`DirDiff.IsSame` requires this).
- `DirDiffTheorems.DiffDistinct`: requires well-formed trees (every entry name non-empty, without `/`, not `.` or `..`), which every real directory listing satisfies. The same holds for `DirDiffTheorems.DiffDisjoint`, `DirDiffTheorems.DiffShown`, `DirDiffTheorems.DiffSwappedList` and `DirDiffTheorems.DiffSymmetric`.
- `DirDiffTheorems.DiffDisjoint`: requires well-formed trees, as above.
- `DirDiffTheorems.DiffShown`: requires well-formed trees, as above.
- `DirDiffTheorems.DiffSwappedList`: requires well-formed trees, as above.
- `DirDiffTheorems.DiffSymmetric`: requires well-formed trees, as above. With a custom `match` the differing files are not claimed symmetric, because `match` need not be.
