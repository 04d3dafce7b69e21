/** CourseConfig (src/dbacademy/dbhelper/course_config.py): the build name derived from a
    course name, and the checks the constructor makes on the supported and expected DBRs. */
module CourseConfigs {
  import opened Wrappers
  import opened Text

  // ---------------------------------------------------------------------------
  // Characters
  // ---------------------------------------------------------------------------

  /** The class [a-zA-Z\d] on ASCII text. */
  predicate IsAlnum(c: char) {
    ('a' <= c <= 'z') || ('A' <= c <= 'Z') || ('0' <= c <= '9')
  }

  /** A character a build name may hold: a lower-case letter, a digit or a hyphen. */
  predicate IsBuildChar(c: char) {
    ('a' <= c <= 'z') || ('0' <= c <= '9') || c == '-'
  }

  predicate AllBuildChars(s: string) {
    forall k :: 0 <= k < |s| ==> IsBuildChar(s[k])
  }

  /** str.lower() on one ASCII character. */
  function LowerChar(c: char): (d: char)
    ensures 'A' <= c <= 'Z' ==> 'a' <= d <= 'z'
    ensures !('A' <= c <= 'Z') ==> d == c
  {
    if 'A' <= c <= 'Z' then (c as int - 'A' as int + 'a' as int) as char else c
  }

  // ---------------------------------------------------------------------------
  // The three string steps of to_build_name
  // ---------------------------------------------------------------------------

  /** re.sub(r"[^a-zA-Z\d]", "-", s): every character outside the class becomes a hyphen. */
  function HyphenateNonAlnum(s: string): (r: string)
    ensures |r| == |s|
    ensures forall k :: 0 <= k < |s| ==> r[k] == (if IsAlnum(s[k]) then s[k] else '-')
  {
    if s == [] then [] else [if IsAlnum(s[0]) then s[0] else '-'] + HyphenateNonAlnum(s[1..])
  }

  /** s.lower(). */
  function Lower(s: string): (r: string)
    ensures |r| == |s|
    ensures forall k :: 0 <= k < |s| ==> r[k] == LowerChar(s[k])
  {
    if s == [] then [] else [LowerChar(s[0])] + Lower(s[1..])
  }

  /** "--" in s. */
  predicate HasDoubleHyphen(s: string) {
    exists k | 0 <= k < |s| - 1 :: s[k] == '-' && s[k + 1] == '-'
  }

  /** s.replace("--", "-"): occurrences found left to right, without overlap. */
  function ReplaceDoubleHyphens(s: string): string
  {
    if |s| < 2 then s
    else if s[0] == '-' && s[1] == '-' then "-" + ReplaceDoubleHyphens(s[2..])
    else [s[0]] + ReplaceDoubleHyphens(s[1..])
  }

  // ---------------------------------------------------------------------------
  // Specification: squeezing runs of hyphens
  // ---------------------------------------------------------------------------

  /** s with every maximal run of hyphens shortened to one hyphen; afterHyphen says that the
      text before s ended in a hyphen, so a run at the front of s is dropped altogether. */
  function Squeeze(afterHyphen: bool, s: string): string
    decreases |s|
  {
    if s == [] then []
    else if s[0] == '-' then (if afterHyphen then [] else "-") + Squeeze(true, s[1..])
    else [s[0]] + Squeeze(false, s[1..])
  }

  /** The build name of a course name: lower-cased, with non-alphanumerics made hyphens and
      each run of hyphens squeezed to one. */
  function BuildName(courseName: string): string
  {
    Squeeze(false, Lower(HyphenateNonAlnum(courseName)))
  }

  /** An independent reading of the same rule, on the course name itself: each maximal run of
      characters outside [a-zA-Z0-9] becomes one hyphen, and letters are lower-cased. */
  function RunsToHyphens(afterRun: bool, s: string): string
    decreases |s|
  {
    if s == [] then []
    else if !IsAlnum(s[0]) then (if afterRun then [] else "-") + RunsToHyphens(true, s[1..])
    else [LowerChar(s[0])] + RunsToHyphens(false, s[1..])
  }

  /** The letters and digits of s, in order. */
  function Alnums(s: string): string
  {
    if s == [] then [] else (if IsAlnum(s[0]) then [s[0]] else []) + Alnums(s[1..])
  }

  // ---------------------------------------------------------------------------
  // to_build_name
  // ---------------------------------------------------------------------------

  /** CourseConfig.to_build_name: None stays None; otherwise the name is hyphenated and
      lower-cased, and "--" is replaced by "-" until none is left. */
  method ToBuildName(courseName: Option<string>) returns (r: Option<string>)
    ensures courseName == None ==> r == None
    ensures courseName.Some? ==> r == Some(BuildName(courseName.value))
    ensures r.Some? ==> !HasDoubleHyphen(r.value) && AllBuildChars(r.value)
  {
    if courseName.None? {
      return None;
    }
    var name := courseName.value;
    var buildName := Lower(HyphenateNonAlnum(name));
    ghost var start := buildName;
    while HasDoubleHyphen(buildName)
      invariant Squeeze(false, buildName) == Squeeze(false, start)
      decreases |buildName|
    {
      ReplaceShortens(buildName);
      SqueezeAfterReplace(false, buildName);
      buildName := ReplaceDoubleHyphens(buildName);
    }
    SqueezeFixesSingleHyphens(false, buildName);
    BuildNameShape(name);
    r := Some(buildName);
  }

  // ---------------------------------------------------------------------------
  // Lemmas
  // ---------------------------------------------------------------------------

  /** A replace pass never lengthens the text, and shortens it while "--" occurs: the
      collapsing loop terminates. */
  lemma {:induction false} ReplaceShortens(s: string)
    ensures |ReplaceDoubleHyphens(s)| <= |s|
    ensures HasDoubleHyphen(s) ==> |ReplaceDoubleHyphens(s)| < |s|
    decreases |s|
  {
    if |s| >= 2 {
      if s[0] == '-' && s[1] == '-' {
        ReplaceShortens(s[2..]);
      } else {
        ReplaceShortens(s[1..]);
        if HasDoubleHyphen(s) {
          var k :| 0 <= k < |s| - 1 && s[k] == '-' && s[k + 1] == '-';
          assert k > 0;
          assert s[1..][k - 1] == '-' && s[1..][k] == '-';
        }
      }
    }
  }

  /** A replace pass does not change the squeezed form. */
  lemma {:induction false} SqueezeAfterReplace(afterHyphen: bool, s: string)
    ensures Squeeze(afterHyphen, ReplaceDoubleHyphens(s)) == Squeeze(afterHyphen, s)
    decreases |s|
  {
    if |s| >= 2 {
      if s[0] == '-' && s[1] == '-' {
        var t := ReplaceDoubleHyphens(s[2..]);
        SqueezeAfterReplace(true, s[2..]);
        assert ("-" + t)[1..] == t;
        assert s[1..][1..] == s[2..];
      } else {
        var t := ReplaceDoubleHyphens(s[1..]);
        SqueezeAfterReplace(s[0] == '-', s[1..]);
        assert ([s[0]] + t)[1..] == t;
      }
    }
  }

  /** Text free of "--" (and not starting with a hyphen right after one) is its own squeezed form. */
  lemma {:induction false} SqueezeFixesSingleHyphens(afterHyphen: bool, s: string)
    requires !HasDoubleHyphen(s)
    requires afterHyphen ==> s == [] || s[0] != '-'
    ensures Squeeze(afterHyphen, s) == s
    decreases |s|
  {
    if s != [] {
      if |s| >= 2 {
        assert !HasDoubleHyphen(s[1..]);
        assert s[0] == '-' ==> s[1] != '-';
      }
      SqueezeFixesSingleHyphens(s[0] == '-', s[1..]);
      assert s == [s[0]] + s[1..];
    }
  }

  /** The squeezed form has no "--", never starts with a hyphen after one, and keeps only
      characters that were already there. */
  lemma {:induction false} SqueezeShape(afterHyphen: bool, s: string)
    ensures var r := Squeeze(afterHyphen, s);
            && !HasDoubleHyphen(r)
            && (afterHyphen ==> r == [] || r[0] != '-')
            && (AllBuildChars(s) ==> AllBuildChars(r))
    decreases |s|
  {
    if s != [] {
      var t := Squeeze(s[0] == '-', s[1..]);
      SqueezeShape(s[0] == '-', s[1..]);
      var r := Squeeze(afterHyphen, s);
      if !(s[0] == '-' && afterHyphen) {
        assert r == [s[0]] + t;
        if AllBuildChars(s) {
          assert forall k :: 0 <= k < |t| ==> IsBuildChar(t[k]) by {
            assert AllBuildChars(s[1..]);
          }
        }
      } else {
        if AllBuildChars(s) {
          assert AllBuildChars(s[1..]);
        }
      }
    }
  }

  /** Hyphenating and lower-casing leave only build characters. */
  lemma HyphenatedIsBuildChars(s: string)
    ensures AllBuildChars(Lower(HyphenateNonAlnum(s)))
  {
  }

  /** Every build name consists of a-z, 0-9 and '-' and contains no "--". */
  lemma BuildNameShape(courseName: string)
    ensures !HasDoubleHyphen(BuildName(courseName))
    ensures AllBuildChars(BuildName(courseName))
  {
    HyphenatedIsBuildChars(courseName);
    SqueezeShape(false, Lower(HyphenateNonAlnum(courseName)));
  }

  /** A build name passes through both string steps unchanged. */
  lemma {:induction false} BuildCharsAreFixed(s: string)
    requires AllBuildChars(s)
    ensures Lower(HyphenateNonAlnum(s)) == s
  {
    var r := Lower(HyphenateNonAlnum(s));
    assert forall k :: 0 <= k < |s| ==> r[k] == s[k];
  }

  /** to_build_name is idempotent: a build name is its own build name. */
  lemma BuildNameIdempotent(courseName: string)
    ensures BuildName(BuildName(courseName)) == BuildName(courseName)
  {
    var b := BuildName(courseName);
    BuildNameShape(courseName);
    BuildCharsAreFixed(b);
    SqueezeFixesSingleHyphens(false, b);
  }

  /** The build name is the course name with each run of non-alphanumerics replaced by one
      hyphen and the letters lower-cased. */
  lemma {:induction false} BuildNameIsRunsToHyphens(afterRun: bool, s: string)
    ensures Squeeze(afterRun, Lower(HyphenateNonAlnum(s))) == RunsToHyphens(afterRun, s)
    decreases |s|
  {
    if s != [] {
      var h := Lower(HyphenateNonAlnum(s));
      var t := Lower(HyphenateNonAlnum(s[1..]));
      assert h == [h[0]] + t;
      assert h[0] == '-' <==> !IsAlnum(s[0]);
      BuildNameIsRunsToHyphens(!IsAlnum(s[0]), s[1..]);
    }
  }

  /** The letters and digits of the build name are those of the course name, lower-cased and
      in the same order. */
  lemma {:induction false} BuildNameKeepsAlnums(afterRun: bool, s: string)
    ensures Alnums(RunsToHyphens(afterRun, s)) == Lower(Alnums(s))
    decreases |s|
  {
    if s != [] {
      var t := RunsToHyphens(!IsAlnum(s[0]), s[1..]);
      var head := if !IsAlnum(s[0]) then (if afterRun then [] else "-") else [LowerChar(s[0])];
      assert RunsToHyphens(afterRun, s) == head + t;
      BuildNameKeepsAlnums(!IsAlnum(s[0]), s[1..]);
      AlnumsOfConcat(head, t);
      if IsAlnum(s[0]) {
        assert Alnums(head) == [LowerChar(s[0])];
        assert Lower([s[0]] + Alnums(s[1..]))[1..] == Lower(Alnums(s[1..]));
      } else {
        assert Alnums(head) == [];
      }
    }
  }

  lemma {:induction false} AlnumsOfConcat(a: string, b: string)
    ensures Alnums(a + b) == Alnums(a) + Alnums(b)
    decreases |a|
  {
    if a != [] {
      AlnumsOfConcat(a[1..], b);
      assert (a + b)[1..] == a[1..] + b;
    } else {
      assert a + b == b;
    }
  }

  // ---------------------------------------------------------------------------
  // The CourseConfig value and its constructor's checks
  // ---------------------------------------------------------------------------

  /** _supported_dbrs as passed: one DBR as a string, or a list of them. */
  datatype SupportedDbrs = OneDbr(dbr: string) | DbrList(dbrs: seq<string>)

  /** The AssertionError (or validation error) the constructor raises. */
  datatype ConfigError =
    | NoSupportedDbrs
    | DbrCountMismatch(supportedCount: nat, expectedCount: nat)
    | DbrNotExpected(dbr: string, expected: seq<string>)

  /** The value _expected_dbrs holds before the build fills it in; the checks are skipped for it. */
  const Placeholder := "{{supported_dbrs}}"

  datatype CourseConfig = CourseConfig(
    courseCode: string,
    courseName: string,
    buildName: string,
    dataSourceVersion: string,
    installMinTime: string,
    installMaxTime: string,
    supportedDbrs: seq<string>,
    expectedDbrs: string)
  {
    /** data_source_name: the same value as build_name. */
    function DataSourceName(): string {
      buildName
    }
  }

  /** A single string is taken as a one-element list. */
  function SupportedList(arg: SupportedDbrs): (dbrs: seq<string>)
    ensures arg.OneDbr? ==> dbrs == [arg.dbr]
    ensures arg.DbrList? ==> dbrs == arg.dbrs
  {
    match arg
    case OneDbr(d) => [d]
    case DbrList(ds) => ds
  }

  /** [e.strip() for e in expected.split(",")]. */
  function ExpectedList(expected: string): (values: seq<string>)
    ensures |values| == |Split(expected, ',')|
    ensures forall k :: 0 <= k < |values| ==> values[k] == Strip(Split(expected, ',')[k])
  {
    var parts := Split(expected, ',');
    seq(|parts|, k requires 0 <= k < |parts| => Strip(parts[k]))
  }

  /** The position of the first supported DBR missing from the expected list, or the length of
      the list when every one is expected. */
  function FirstUnexpected(supported: seq<string>, expected: seq<string>): (j: nat)
    ensures j <= |supported|
    ensures forall k :: 0 <= k < j ==> supported[k] in expected
    ensures j < |supported| ==> supported[j] !in expected
    decreases |supported|
  {
    if supported == [] then 0
    else if supported[0] !in expected then 0
    else 1 + FirstUnexpected(supported[1..], expected)
  }

  /** The loop asserting that each supported DBR is expected: the first one that is not, if any. */
  method FindUnexpected(supported: seq<string>, expected: seq<string>) returns (missing: Option<string>)
    ensures FirstUnexpected(supported, expected) == |supported| ==> missing == None
    ensures FirstUnexpected(supported, expected) < |supported| ==>
              missing == Some(supported[FirstUnexpected(supported, expected)])
  {
    for j := 0 to |supported|
      invariant forall k :: 0 <= k < j ==> supported[k] in expected
    {
      if supported[j] !in expected {
        return Some(supported[j]);
      }
    }
    return None;
  }

  /** CourseConfig.__init__: normalises the supported DBRs, rejects an empty list and, unless
      the expected DBRs are still the placeholder, requires both lists to have the same length
      and every supported DBR to be expected; the first failing check is reported. */
  method NewCourseConfig(courseCode: string, courseName: string, dataSourceVersion: string,
                         installMinTime: string, installMaxTime: string,
                         supportedArg: SupportedDbrs, expectedDbrs: string)
    returns (r: Result<CourseConfig, ConfigError>)
    ensures var supported := SupportedList(supportedArg);
            var expected := ExpectedList(expectedDbrs);
            if supported == [] then r == Failure(NoSupportedDbrs)
            else if expectedDbrs != Placeholder && |supported| != |expected| then
              r == Failure(DbrCountMismatch(|supported|, |expected|))
            else if expectedDbrs != Placeholder && FirstUnexpected(supported, expected) < |supported| then
              r == Failure(DbrNotExpected(supported[FirstUnexpected(supported, expected)], expected))
            else
              r == Success(CourseConfig(courseCode, courseName, BuildName(courseName), dataSourceVersion,
                                        installMinTime, installMaxTime, supported, expectedDbrs))
  {
    var buildName := ToBuildName(Some(courseName));
    var supported := SupportedList(supportedArg);
    if supported == [] {
      return Failure(NoSupportedDbrs);
    }
    if expectedDbrs != Placeholder {
      var expected := ExpectedList(expectedDbrs);
      if |supported| != |expected| {
        return Failure(DbrCountMismatch(|supported|, |expected|));
      }
      var missing := FindUnexpected(supported, expected);
      if missing.Some? {
        return Failure(DbrNotExpected(missing.value, expected));
      }
    }
    r := Success(CourseConfig(courseCode, courseName, buildName.value, dataSourceVersion,
                              installMinTime, installMaxTime, supported, expectedDbrs));
  }

  /** A successfully built config has a build name and data source name that are the
      build name of its course name, and a non-empty DBR list. */
  lemma ConfigNames(courseCode: string, courseName: string, dataSourceVersion: string,
                    installMinTime: string, installMaxTime: string,
                    supportedArg: SupportedDbrs, expectedDbrs: string, c: CourseConfig)
    requires c == CourseConfig(courseCode, courseName, BuildName(courseName), dataSourceVersion,
                               installMinTime, installMaxTime, SupportedList(supportedArg), expectedDbrs)
    ensures c.buildName == c.DataSourceName() == BuildName(courseName)
    ensures !HasDoubleHyphen(c.DataSourceName()) && AllBuildChars(c.DataSourceName())
  {
    BuildNameShape(courseName);
  }

  /** Writing the DBRs joined by commas gives an expected list that reads back as those DBRs,
      so such a config passes the checks. */
  lemma {:induction false} ExpectedListOfJoin(dbrs: seq<string>)
    requires dbrs != []
    requires forall k :: 0 <= k < |dbrs| ==> Trimmed(dbrs[k]) && ',' !in dbrs[k]
    ensures ExpectedList(Join(dbrs, ",")) == dbrs
  {
    assert "," == [','];
    SplitJoin(dbrs, ',');
    var parts := Split(Join(dbrs, ","), ',');
    assert parts == dbrs;
    var values := ExpectedList(Join(dbrs, ","));
    forall k | 0 <= k < |dbrs|
      ensures values[k] == dbrs[k]
    {
      assert values[k] == Strip(parts[k]);
      StripOfTrimmed(dbrs[k]);
    }
  }
}
