/**
 * The Python-to-Go migration engine (migrate/go_migrator.py): the migration
 * and repair prompts, the sanitizer applied to generated text, the four static
 * checks, and the generate-clean-validate sequence of `migrate_file` and
 * `fix_with_error`.
 */
module GoMigrator {
  import opened Wrappers
  import opened PyText
  import opened Generation
  import opened Paths
  import opened Sequences

  const Fence := "```"
  const GoFence := "```go"

  /** What the sanitizer puts in front of text that does not start with `package`. */
  const PackageStub := "package main\n\n"

  // ---------------------------------------------------------------------------
  // Prompts
  // ---------------------------------------------------------------------------

  const MigrationRules :=
    "\nYou are a senior Go engineer migrating ERPNext Python code to Go.\n\nSTRICT RULES:\n"
    + "- Output ONLY valid Go code\n- Start with: package main\n- No markdown, no explanations\n"
    + "- The Go program MUST compile\n- The Go output MUST match Python behavior\n"
    + "- Preserve all logic and edge cases\n- Use idiomatic Go\n- Use explicit error handling\n"
    + "- Never omit logic\n\n"

  /** `build_prompt(py_code, file_path)` */
  function MigrationPrompt(pyCode: string, filePath: string): string {
    MigrationRules + "Python file:\n" + filePath + "\n\nPython code:\n" + Fenced(pyCode) + "\n"
  }

  /** The migration prompt names the file and holds the Python source verbatim between the dashed delimiters. */
  lemma MigrationPromptEmbeds(pyCode: string, filePath: string)
    ensures StartsWith(MigrationPrompt(pyCode, filePath), MigrationRules)
    ensures Contains(MigrationPrompt(pyCode, filePath), "Python file:\n" + filePath)
    ensures Contains(MigrationPrompt(pyCode, filePath), Fenced(pyCode))
  {
    var named := MigrationRules + "Python file:\n" + filePath;
    var before := named + "\n\nPython code:\n";
    StartsWithExtended(MigrationRules, MigrationRules, "Python file:\n");
    StartsWithExtended(MigrationRules + "Python file:\n", MigrationRules, filePath);
    StartsWithExtended(named, MigrationRules, "\n\nPython code:\n");
    StartsWithExtended(before, MigrationRules, Fenced(pyCode));
    StartsWithExtended(before + Fenced(pyCode), MigrationRules, "\n");
    AppendAssoc(MigrationRules, "Python file:\n", filePath);
    ContainsMiddle(MigrationRules, "Python file:\n" + filePath, "\n\nPython code:\n");
    ContainsExtended(before, "Python file:\n" + filePath, Fenced(pyCode));
    ContainsExtended(before + Fenced(pyCode), "Python file:\n" + filePath, "\n");
    ContainsMiddle(before, Fenced(pyCode), "\n");
  }

  const RepairIntro := "\nFix the following Go code using the compiler error.\nOutput ONLY corrected Go code.\n\n"
  const ErrorHeading := "Compiler error:\n"

  /** The prompt `fix_with_error` sends. */
  function RepairPrompt(brokenCode: string, compilerError: string): string {
    RepairIntro + ErrorHeading + compilerError + "\n\nGo code:\n" + Fenced(brokenCode) + "\n"
  }

  /** The repair prompt holds the compiler error under its heading and the broken code verbatim. */
  lemma RepairPromptEmbeds(brokenCode: string, compilerError: string)
    ensures Contains(RepairPrompt(brokenCode, compilerError), ErrorHeading + compilerError)
    ensures Contains(RepairPrompt(brokenCode, compilerError), Fenced(brokenCode))
  {
    var before := RepairIntro + ErrorHeading + compilerError + "\n\nGo code:\n";
    AppendAssoc(RepairIntro, ErrorHeading, compilerError);
    ContainsMiddle(RepairIntro, ErrorHeading + compilerError, "\n\nGo code:\n");
    ContainsExtended(before, ErrorHeading + compilerError, Fenced(brokenCode));
    ContainsExtended(before + Fenced(brokenCode), ErrorHeading + compilerError, "\n");
    ContainsMiddle(before, Fenced(brokenCode), "\n");
  }

  // ---------------------------------------------------------------------------
  // Sanitizer
  // ---------------------------------------------------------------------------

  /** A line the sanitizer drops as prose or a comment rather than Go code. */
  predicate IsNoise(line: string) {
    var stripped := Strip(line);
    StartsWith(Lower(stripped), "here is")
    || StartsWith(Lower(stripped), "this code")
    || StartsWith(stripped, "#")
  }

  /** A line the sanitizer keeps. */
  predicate IsCode(line: string) {
    !IsNoise(line)
  }

  /** The lines the sanitizer keeps, in order. */
  function KeepCode(lines: seq<string>): seq<string> {
    Filter(lines, IsCode)
  }

  /**
   * Keeping lines is a filter: a line is kept exactly when it is not noise, kept
   * lines are unchanged, and the lines of a concatenation are kept part by part.
   */
  lemma KeepCodeIsFilter(a: seq<string>, b: seq<string>)
    ensures KeepCode(a + b) == KeepCode(a) + KeepCode(b)
    ensures forall l :: l in KeepCode(b) <==> l in b && !IsNoise(l)
  {
    FilterAppend(a, b, IsCode);
    FilterMembers(b, IsCode);
  }

  /** The text after stripping and removing the Markdown fences. */
  function Unfenced(raw: string): string {
    Replace(Replace(Strip(raw), GoFence, ""), Fence, "")
  }

  /** `text`, with the `package main` stub put in front unless it already starts with `package`. */
  function WithPackage(text: string): (r: string)
    ensures StartsWith(r, "package")
    ensures StartsWith(text, "package") ==> r == text
    ensures !StartsWith(text, "package") ==> r == PackageStub + text
  {
    if StartsWith(text, "package") then text
    else
      assert (PackageStub + text)[..7] == "package";
      PackageStub + text
  }

  /** What `_clean_go_code(raw)` returns. */
  function Cleaned(raw: string): (r: string)
    ensures StartsWith(r, "package")
  {
    WithPackage(Strip(Join(KeepCode(SplitLines(Unfenced(raw))), "\n")))
  }

  /** Length of the run of backticks that starts `s`. */
  function LeadTicks(s: string): (n: nat)
    ensures n <= |s|
    ensures forall i :: 0 <= i < n ==> s[i] == '`'
    ensures n < |s| ==> s[n] != '`'
  {
    if s != [] && s[0] == '`' then 1 + LeadTicks(s[1..]) else 0
  }

  /** `Replace(s, Fence, "")` has no fence and keeps `LeadTicks(s) % 3` leading backticks. */
  predicate FenceFreeRemoval(s: string) {
    var r := Replace(s, Fence, "");
    !Contains(r, Fence) && LeadTicks(r) == LeadTicks(s) % 3
  }

  /**
   * Removing every "```" left to right leaves none behind: each run of k
   * backticks shrinks to k % 3 of them, and runs stay apart.
   */
  lemma {:induction false} FenceRemoval(s: string)
    ensures !Contains(Replace(s, Fence, ""), Fence)
    ensures LeadTicks(Replace(s, Fence, "")) == LeadTicks(s) % 3
    decreases |s|
  {
    if |s| < 3 {
    } else if s[..3] == Fence {
      FenceRemoval(s[3..]);
      FenceRemovalAtFence(s);
    } else if s[0] != '`' {
      FenceRemoval(s[1..]);
      FenceRemovalAtOther(s);
    } else {
      FenceRemoval(s[1..]);
      FenceRemovalAtTick(s);
    }
  }

  lemma FenceRemovalAtFence(s: string)
    requires |s| >= 3 && s[..3] == Fence && FenceFreeRemoval(s[3..])
    ensures FenceFreeRemoval(s)
  {
    assert Replace(s, Fence, "") == Replace(s[3..], Fence, "");
    assert s[0] == '`' && s[1] == '`' && s[2] == '`' by { assert s[..3] == "```"; }
    assert s[1..][1..] == s[2..] && s[2..][1..] == s[3..];
    var k := LeadTicks(s[3..]);
    LeadTick(s);
    LeadTick(s[1..]);
    LeadTick(s[2..]);
    assert LeadTicks(s) == 3 + k;
    assert (3 + k) % 3 == k % 3;
  }

  /** A leading backtick adds one to the run. */
  lemma LeadTick(s: string)
    requires s != [] && s[0] == '`'
    ensures LeadTicks(s) == 1 + LeadTicks(s[1..])
  {
  }

  lemma FenceRemovalAtOther(s: string)
    requires |s| >= 3 && s[..3] != Fence && s[0] != '`' && FenceFreeRemoval(s[1..])
    ensures FenceFreeRemoval(s)
  {
    var r1 := Replace(s[1..], Fence, "");
    assert Replace(s, Fence, "") == [] + [s[0]] + r1;
    NoMatchAcrossSeparator([], s[0], r1, Fence);
  }

  lemma FenceRemovalAtTick(s: string)
    requires |s| >= 3 && s[..3] != Fence && s[0] == '`' && FenceFreeRemoval(s[1..])
    ensures FenceFreeRemoval(s)
  {
    var r := Replace(s, Fence, "");
    var r1 := Replace(s[1..], Fence, "");
    assert r == ['`'] + r1;
    assert LeadTicks(s) == 1 + LeadTicks(s[1..]) && LeadTicks(s) <= 2 by {
      assert s[..3] == [s[0], s[1], s[2]];
      assert s[1] != '`' || s[2] != '`';
    }
    assert LeadTicks(r) == 1 + LeadTicks(r1) by {
      assert r[1..] == r1;
    }
    TickRunHasNoFence(r, r1);
  }

  /** A run of at most two backticks in front of fence-free text makes no fence. */
  lemma TickRunHasNoFence(r: string, r1: string)
    requires r == ['`'] + r1 && !Contains(r1, Fence) && LeadTicks(r) <= 2
    ensures !Contains(r, Fence)
  {
    forall i | 0 <= i <= |r| - 3 ensures !MatchAt(r, Fence, i) {
      if i == 0 {
        LeadTicksEnd(r);
        assert r[..3][LeadTicks(r)] == r[LeadTicks(r)];
      } else {
        assert r[i..i + 3] == r1[i - 1..i + 2];
        assert !MatchAt(r1, Fence, i - 1);
      }
    }
  }

  /** The character after the leading run of backticks is not a backtick. */
  lemma {:induction false} LeadTicksEnd(s: string)
    ensures LeadTicks(s) <= |s|
    ensures LeadTicks(s) < |s| ==> s[LeadTicks(s)] != '`'
  {
    if s != [] && s[0] == '`' {
      LeadTicksEnd(s[1..]);
    }
  }

  /** Keeping the lines of fence-free text and joining them adds no fence. */
  lemma KeptLinesHaveNoFence(u: string)
    requires !Contains(u, Fence)
    ensures !Contains(Join(KeepCode(SplitLines(u)), "\n"), Fence)
  {
    var all := SplitLines(u);
    SplitLinesPieces(u);
    var kept := KeepCode(all);
    KeepCodeIsFilter([], all);
    forall l | l in kept ensures !Contains(l, Fence) {
      NoneInFactor(u, l, Fence);
    }
    JoinAvoids(kept, '\n', Fence);
  }

  /** Prefixing the `package main` stub to fence-free text adds no fence. */
  lemma StubHasNoFence(text: string)
    requires !Contains(text, Fence)
    ensures !Contains(PackageStub + text, Fence)
  {
    NoFirstCharNoMatch("package main\n", Fence);
    NoMatchAcrossSeparator("package main\n", '\n', text, Fence);
    assert PackageStub + text == "package main\n" + ['\n'] + text;
  }

  /** The sanitizer's output never contains a Markdown fence. */
  lemma CleanedHasNoFence(raw: string)
    ensures !Contains(Cleaned(raw), Fence)
  {
    var u := Unfenced(raw);
    FenceRemoval(Replace(Strip(raw), GoFence, ""));
    KeptLinesHaveNoFence(u);
    var joined := Join(KeepCode(SplitLines(u)), "\n");
    var text := Strip(joined);
    StripIsPiece(joined);
    NoneInFactor(joined, text, Fence);
    if !StartsWith(text, "package") {
      StubHasNoFence(text);
    }
  }

  /** Keeping the lines of `a + [line]` keeps those of `a`, then `line` unless it is noise. */
  lemma KeepCodeSnoc(a: seq<string>, line: string)
    ensures KeepCode(a + [line]) == KeepCode(a) + (if IsNoise(line) then [] else [line])
  {
    assert (a + [line])[..|a|] == a;
  }

  /** The line loop of `_clean_go_code`: drops prose and comment lines, keeps the rest in order. */
  method DropNoiseLines(all: seq<string>) returns (lines: seq<string>)
    ensures lines == KeepCode(all)
  {
    lines := [];
    for i := 0 to |all|
      invariant lines == KeepCode(all[..i])
    {
      var line := all[i];
      assert all[..i + 1] == all[..i] + [line];
      KeepCodeSnoc(all[..i], line);
      var stripped := Strip(line);
      if StartsWith(Lower(stripped), "here is") {
        continue;
      }
      if StartsWith(Lower(stripped), "this code") {
        continue;
      }
      if StartsWith(stripped, "#") {
        continue;
      }
      lines := lines + [line];
    }
    assert all[..|all|] == all;
  }

  /** `_clean_go_code(raw)` */
  method CleanGoCode(raw: string) returns (text: string)
    ensures text == Cleaned(raw)
    ensures StartsWith(text, "package") && !Contains(text, Fence)
  {
    text := Strip(raw);
    text := Replace(Replace(text, GoFence, ""), Fence, "");
    var lines := DropNoiseLines(SplitLines(text));
    text := Strip(Join(lines, "\n"));
    if !StartsWith(text, "package") {
      text := PackageStub + text;
    }
    CleanedHasNoFence(raw);
  }

  // ---------------------------------------------------------------------------
  // Static checks
  // ---------------------------------------------------------------------------

  datatype ValidationError =
    | MissingPackageMain
    | BraceMismatch(open: nat, close: nat)
    | VariadicSyntax
    | TooShort

  /** The text of the `ValueError` each failed check raises. */
  function ErrorMessage(e: ValidationError): string {
    match e
    case MissingPackageMain => "Generated Go code missing `package main`"
    case BraceMismatch(o, c) => "Brace mismatch: {=" + Decimal(o) + ", }=" + Decimal(c)
    case VariadicSyntax => "Variadic syntax (...) detected — invalid for migration"
    case TooShort => "Go code too short — likely truncated"
  }

  datatype Verdict = Valid | Invalid(error: ValidationError)

  /** All four checks of `_validate_go` hold. */
  predicate PassesChecks(code: string) {
    && Contains(code, "package main")
    && CountChar(code, '{') == CountChar(code, '}')
    && !Contains(code, "...")
    && |SplitLines(code)| >= 5
  }

  /**
   * `_validate_go(code)`: the checks run in a fixed order and the first one that
   * fails is the one reported; a brace mismatch reports both counts.
   */
  function ValidateGo(code: string): (v: Verdict)
    ensures v == Valid <==> PassesChecks(code)
    ensures v == Invalid(MissingPackageMain) <==> !Contains(code, "package main")
    ensures (v.Invalid? && v.error.BraceMismatch?)
        <==> Contains(code, "package main") && CountChar(code, '{') != CountChar(code, '}')
    ensures v.Invalid? && v.error.BraceMismatch?
        ==> v.error.open == CountChar(code, '{') && v.error.close == CountChar(code, '}')
    ensures v == Invalid(VariadicSyntax)
        <==> Contains(code, "package main") && CountChar(code, '{') == CountChar(code, '}')
             && Contains(code, "...")
    ensures v == Invalid(TooShort)
        <==> Contains(code, "package main") && CountChar(code, '{') == CountChar(code, '}')
             && !Contains(code, "...") && |SplitLines(code)| < 5
  {
    if !Contains(code, "package main") then Invalid(MissingPackageMain)
    else
      var openBraces := CountChar(code, '{');
      var closeBraces := CountChar(code, '}');
      if openBraces != closeBraces then Invalid(BraceMismatch(openBraces, closeBraces))
      else if Contains(code, "...") then Invalid(VariadicSyntax)
      else if |SplitLines(code)| < 5 then Invalid(TooShort)
      else Valid
  }

  /** Seven opening braces against six closing ones are reported with both counts. */
  lemma BraceMismatchMessage()
    ensures ErrorMessage(BraceMismatch(7, 6)) == "Brace mismatch: {=7, }=6"
  {
    assert Decimal(7) == "7" && Decimal(6) == "6";
  }

  // ---------------------------------------------------------------------------
  // migrate_file, fix_with_error, save paths
  // ---------------------------------------------------------------------------

  datatype MigrateError =
    | FileNotFound(path: string)
    | ReadFailed(reason: string)
    | GenerationFailed(reason: string)
    | Rejected(error: ValidationError)

  /** The outcome of a migration call and the providers it called. */
  datatype Migration = Migration(result: Result<string, MigrateError>, calls: seq<ProviderName>)

  /** Text that went through the sanitizer and then passed every check. */
  predicate IsCheckedGo(code: string) {
    StartsWith(code, "package") && !Contains(code, Fence) && PassesChecks(code)
  }

  /** What cleaning and then validating a generation outcome yields. */
  function Checked(outcome: Result<string, string>): Result<string, MigrateError> {
    match outcome
    case Failure(e) => Failure(GenerationFailed(e))
    case Success(raw) =>
      match ValidateGo(Cleaned(raw))
      case Valid => Success(Cleaned(raw))
      case Invalid(e) => Failure(Rejected(e))
  }

  /** One generation call whose text is cleaned and then validated. */
  method GenerateGo(prompt: string, b: Backends) returns (m: Migration)
    ensures m.calls == SafeGenerate(b, prompt).calls
    ensures m.result == Checked(SafeGenerate(b, prompt).outcome)
    ensures m.result.Success? ==> IsCheckedGo(m.result.value)
  {
    var g := SafeGenerate(b, prompt);
    if g.outcome.Failure? {
      return Migration(Failure(GenerationFailed(g.outcome.error)), g.calls);
    }
    var goCode := CleanGoCode(g.outcome.value);
    var verdict := ValidateGo(goCode);
    if verdict.Invalid? {
      return Migration(Failure(Rejected(verdict.error)), g.calls);
    }
    m := Migration(Success(goCode), g.calls);
  }

  /**
   * `migrate_file(python_file)`: a missing file fails before any provider is
   * called; otherwise one generation call whose text is cleaned and validated.
   */
  method MigrateFile(pythonFile: string, file: FileRead, b: Backends) returns (m: Migration)
    ensures file.Missing? ==> m == Migration(Failure(FileNotFound(pythonFile)), [])
    ensures file.Unreadable? ==> m == Migration(Failure(ReadFailed(file.reason)), [])
    ensures file.Contents? ==> m.calls == SafeGenerate(b, MigrationPrompt(file.text, pythonFile)).calls
    ensures file.Contents?
        ==> m.result == Checked(SafeGenerate(b, MigrationPrompt(file.text, pythonFile)).outcome)
    ensures m.result.Success? ==> IsCheckedGo(m.result.value)
  {
    match file
    case Missing =>
      m := Migration(Failure(FileNotFound(pythonFile)), []);
    case Unreadable(reason) =>
      m := Migration(Failure(ReadFailed(reason)), []);
    case Contents(pyCode) =>
      var prompt := MigrationPrompt(pyCode, pythonFile);
      m := GenerateGo(prompt, b);
  }

  /** `fix_with_error(broken_code, compiler_error)`: a single repair call, cleaned and validated. */
  method FixWithError(brokenCode: string, compilerError: string, b: Backends) returns (m: Migration)
    ensures m.calls == SafeGenerate(b, RepairPrompt(brokenCode, compilerError)).calls
    ensures m.result == Checked(SafeGenerate(b, RepairPrompt(brokenCode, compilerError)).outcome)
    ensures m.result.Success? ==> IsCheckedGo(m.result.value)
  {
    var prompt := RepairPrompt(brokenCode, compilerError);
    m := GenerateGo(prompt, b);
  }

  /** Where `save_go_file` writes: `<project root>/migrations/<stem>.go`. */
  function SavedPath(projectRoot: string, pythonFile: string): string {
    Child(Child(projectRoot, "migrations"), Stem(pythonFile) + ".go")
  }

  /** The saved file is named after the Python file's stem and sits in the project's `migrations` directory. */
  lemma SavedPathParts(projectRoot: string, pythonFile: string)
    requires IsDir(projectRoot)
    ensures Name(SavedPath(projectRoot, pythonFile)) == Stem(pythonFile) + ".go"
    ensures Name(Parent(SavedPath(projectRoot, pythonFile))) == "migrations"
    ensures Parent(Parent(SavedPath(projectRoot, pythonFile))) == projectRoot
  {
    ChildParts(projectRoot, "migrations");
    ChildParts(Child(projectRoot, "migrations"), Stem(pythonFile) + ".go");
  }

  /** `migrate_and_save(python_file)`: the path written and the text written to it. */
  method MigrateAndSave(projectRoot: string, pythonFile: string, file: FileRead, b: Backends)
    returns (r: Result<(string, string), MigrateError>)
    ensures r.Success? ==> r.value.0 == SavedPath(projectRoot, pythonFile) && IsCheckedGo(r.value.1)
    ensures file.Missing? ==> r == Failure(FileNotFound(pythonFile))
    ensures file.Unreadable? ==> r == Failure(ReadFailed(file.reason))
    ensures file.Contents? ==>
              var checked := Checked(SafeGenerate(b, MigrationPrompt(file.text, pythonFile)).outcome);
              r == if checked.Success? then Success((SavedPath(projectRoot, pythonFile), checked.value)) else Failure(checked.error)
  {
    var m := MigrateFile(pythonFile, file, b);
    if m.result.Failure? {
      return Failure(m.result.error);
    }
    r := Success((SavedPath(projectRoot, pythonFile), m.result.value));
  }
}
