/**
 * The standalone converter (migrate/python_to_go.py): its prompt, the
 * extraction of Go source from the generator's reply, the two versions of
 * `convert_python_to_go` that the file holds on either side of an unresolved
 * merge conflict, and the path `save_go_file` writes to.
 */
module PythonToGo {
  import opened Wrappers
  import opened PyText
  import opened Generation
  import opened Paths
  import opened Sequences

  const ConvertIntro := "\nYou are an expert software migration engineer.\n\n"

  const Instruction := "Convert the following Python code into Go"

  const ConvertRules := ConvertIntro + Instruction + ConvertRequirements

  const ConvertRequirements :=
    ".\n\nStrict requirements:\n- The Go code must produce the exact same output for the same inputs\n- Preserve all logic and edge cases\n- Use idiomatic Go\n- Replace Python exceptions with explicit error handling\n- Use proper Go types\n- Do NOT omit any logic\n- The output must be a complete, compilable Go file\n- Include package name, imports, and main() if required\n\nPython file path:\n"

  const OutputNote := "\n\nOutput:\n- Full Go source code only\n"

  /** `build_prompt(py_code, file_path)` */
  function BuildPrompt(pyCode: string, filePath: string): string {
    ConvertRules + filePath + "\n\nPython code:\n" + Fenced(pyCode) + OutputNote
  }

  /** The prompt carries the conversion instruction. */
  lemma BuildPromptHasInstruction(pyCode: string, filePath: string)
    ensures Contains(BuildPrompt(pyCode, filePath), Instruction)
  {
    ContainsMiddle(ConvertIntro, Instruction, ConvertRequirements);
    ContainsExtended(ConvertRules, Instruction, filePath);
    ContainsExtended(ConvertRules + filePath, Instruction, "\n\nPython code:\n");
    ContainsExtended(ConvertRules + filePath + "\n\nPython code:\n", Instruction, Fenced(pyCode));
    ContainsExtended(ConvertRules + filePath + "\n\nPython code:\n" + Fenced(pyCode), Instruction, OutputNote);
  }

  /** The prompt carries the file path. */
  lemma BuildPromptHasPath(pyCode: string, filePath: string)
    ensures Contains(BuildPrompt(pyCode, filePath), filePath)
  {
    ContainsMiddle(ConvertRules, filePath, "\n\nPython code:\n");
    ContainsExtended(ConvertRules + filePath + "\n\nPython code:\n", filePath, Fenced(pyCode));
    ContainsExtended(ConvertRules + filePath + "\n\nPython code:\n" + Fenced(pyCode), filePath, OutputNote);
  }

  /** The prompt carries the code verbatim between the dashed delimiters. */
  lemma BuildPromptHasCode(pyCode: string, filePath: string)
    ensures Contains(BuildPrompt(pyCode, filePath), Fenced(pyCode))
  {
    ContainsMiddle(ConvertRules + filePath + "\n\nPython code:\n", Fenced(pyCode), OutputNote);
  }

  // ---------------------------------------------------------------------------
  // extract_go_code
  // ---------------------------------------------------------------------------

  /** A line the extractor accepts as the start of Go source: a trailing space is part of the test. */
  predicate IsPackageLine(line: string) {
    StartsWith(Strip(line), "package ")
  }

  /** A package line is never empty. */
  lemma PackageLineNonEmpty(line: string)
    requires IsPackageLine(line)
    ensures line != []
  {
    if line == [] {
      StripOfTrimmed(line);
    }
  }

  /** A line shorter than `package ` never passes, whatever its content. */
  lemma ShortLineIsNotPackageLine(line: string)
    requires |line| < 8
    ensures !IsPackageLine(line)
  {
    StripIsPiece(line);
    var i :| 0 <= i <= |line| - |Strip(line)| && MatchAt(line, Strip(line), i);
    assert |Strip(line)| <= |line|;
  }

  /** A bare `package` line is not a package line: the test wants the trailing space. */
  lemma BarePackageIsNotPackageLine()
    ensures !IsPackageLine("package")
  {
    ShortLineIsNotPackageLine("package");
  }

  /** `package main` is a package line. */
  lemma PackageMainIsPackageLine()
    ensures IsPackageLine("package main")
  {
    StripOfTrimmed("package main");
    assert StartsWith("package main", "package ") by {
      assert "package main"[..8] == "package ";
    }
  }

  /** Index of the first package line, `|lines|` when there is none. */
  function FirstPackageLine(lines: seq<string>): (i: nat)
    ensures i <= |lines|
  {
    if lines == [] then 0
    else if IsPackageLine(lines[0]) then 0
    else 1 + FirstPackageLine(lines[1..])
  }

  /** The index found is a package line, when there is one, and no earlier line is. */
  lemma {:induction false} FirstPackageLineIsFirst(lines: seq<string>)
    ensures FirstPackageLine(lines) < |lines| ==> IsPackageLine(lines[FirstPackageLine(lines)])
    ensures forall j :: 0 <= j < FirstPackageLine(lines) ==> !IsPackageLine(lines[j])
  {
    if lines != [] && !IsPackageLine(lines[0]) {
      FirstPackageLineIsFirst(lines[1..]);
      assert FirstPackageLine(lines) == 1 + FirstPackageLine(lines[1..]);
      forall j | 0 <= j < FirstPackageLine(lines) ensures !IsPackageLine(lines[j]) {
        if j > 0 {
          assert lines[j] == lines[1..][j - 1];
        }
      }
      if FirstPackageLine(lines) < |lines| {
        assert lines[FirstPackageLine(lines)] == lines[1..][FirstPackageLine(lines[1..])];
      }
    }
  }

  /**
   * `extract_go_code(llm_output)`: the lines from the first package line to the
   * end, joined by newlines; `Failure` stands for the `ValueError` raised when no
   * line qualifies.
   */
  function ExtractGoCode(llmOutput: string): Result<string, string> {
    var lines := SplitLines(llmOutput);
    var i := FirstPackageLine(lines);
    if i == |lines| then Failure(NoGoCodeMessage)
    else Success(Join(lines[i..], "\n"))
  }

  const NoGoCodeMessage := "❌ No valid Go code found in LLM output"

  /** Extraction fails, with the fixed message, exactly when no line of the reply is a package line. */
  lemma ExtractFailsWithoutPackageLine(llmOutput: string)
    ensures ExtractGoCode(llmOutput).Failure? <==> forall l :: l in SplitLines(llmOutput) ==> !IsPackageLine(l)
    ensures ExtractGoCode(llmOutput).Failure? ==> ExtractGoCode(llmOutput).error == NoGoCodeMessage
  {
    var lines := SplitLines(llmOutput);
    var i := FirstPackageLine(lines);
    FirstPackageLineIsFirst(lines);
    if i < |lines| {
      assert lines[i] in lines;
    } else {
      forall l | l in lines ensures !IsPackageLine(l) {
        var j :| 0 <= j < |lines| && lines[j] == l;
      }
    }
  }

  /** Extracted code starts with the first package line of the reply. */
  lemma ExtractedStartsAtPackage(llmOutput: string)
    requires ExtractGoCode(llmOutput).Success?
    ensures var lines := SplitLines(ExtractGoCode(llmOutput).value);
      lines != [] && IsPackageLine(lines[0])
      && lines[0] == SplitLines(llmOutput)[FirstPackageLine(SplitLines(llmOutput))]
  {
    var all := SplitLines(llmOutput);
    var tail := all[FirstPackageLine(all)..];
    FirstPackageLineIsFirst(all);
    SplitLinesPieces(llmOutput);
    assert tail[0] in all;
    PackageLineNonEmpty(tail[0]);
    FirstLineOfJoin(tail);
  }

  /**
   * The extracted text splits back into the reply's lines from the first
   * package line on, except that a trailing empty line is lost in the join.
   */
  lemma ExtractedSplitsBack(llmOutput: string)
    ensures ExtractGoCode(llmOutput).Success? ==>
      SplitLines(ExtractGoCode(llmOutput).value)
        == DropEmptyLast(SplitLines(llmOutput)[FirstPackageLine(SplitLines(llmOutput))..])
  {
    var lines := SplitLines(llmOutput);
    var i := FirstPackageLine(lines);
    if i < |lines| {
      var tail := lines[i..];
      forall l | l in tail ensures NoLineBreak(l) {
        SplitLinesPieces(llmOutput);
        assert l in lines;
      }
      SplitLinesJoinLength(tail);
    }
  }

  /** The extracted text never has more lines than the reply, whatever the reply ends with. */
  lemma ExtractedLineBound(llmOutput: string)
    ensures ExtractGoCode(llmOutput).Success? ==>
      |SplitLines(ExtractGoCode(llmOutput).value)| <= |SplitLines(llmOutput)|
  {
    ExtractedSplitsBack(llmOutput);
  }

  /**
   * When the reply's last line is not empty, extracting again changes nothing
   * (a trailing empty line would be dropped by the second pass).
   */
  lemma ExtractedLines(llmOutput: string)
    requires ExtractGoCode(llmOutput).Success?
    requires var lines := SplitLines(llmOutput); lines[|lines| - 1] != []
    ensures ExtractGoCode(ExtractGoCode(llmOutput).value) == ExtractGoCode(llmOutput)
  {
    var lines := SplitLines(llmOutput);
    var tail := lines[FirstPackageLine(lines)..];
    var code := Join(tail, "\n");
    assert ExtractGoCode(llmOutput) == Success(code);
    ExtractedSplitsBack(llmOutput);
    assert tail[|tail| - 1] == lines[|lines| - 1];
    assert FirstPackageLine(tail) == 0 by {
      FirstPackageLineIsFirst(lines);
      assert IsPackageLine(tail[0]);
    }
    assert tail[0..] == tail;
  }

  /**
   * With a trailing empty line, a second extraction loses that line: a package
   * line followed by `"\n\n"` (`"package main\n\n"`, say) extracts to the
   * line and one newline, and that extracts to the line alone.
   */
  lemma ExtractTwiceDropsEmptyLine(line: string)
    requires IsPackageLine(line) && NoLineBreak(line)
    ensures ExtractGoCode(line + "\n\n") == Success(line + "\n")
    ensures ExtractGoCode(line + "\n") == Success(line)
    ensures ExtractGoCode(ExtractGoCode(line + "\n\n").value) != ExtractGoCode(line + "\n\n")
  {
    assert SplitLines(line + "\n\n") == [line, ""] by {
      assert SplitLines("\n") == [""] by {
        SplitLinesCons("", []);
        assert "" + "\n" + [] == "\n";
      }
      SplitLinesCons(line, "\n");
      assert line + "\n" + "\n" == line + "\n\n";
    }
    ExtractOfLines(line + "\n\n", [line, ""]);
    assert Join([line, ""], "\n") == line + "\n" by {
      assert Join([line, ""], "\n") == line + "\n" + Join([""], "\n");
    }
    assert SplitLines(line + "\n") == [line] by {
      SplitLinesCons(line, []);
      assert line + "\n" + [] == line + "\n";
    }
    ExtractOfLines(line + "\n", [line]);
    assert |line + "\n"| != |line|;
  }

  /** A reply whose first line is a package line extracts to all its lines. */
  lemma ExtractOfLines(reply: string, lines: seq<string>)
    requires SplitLines(reply) == lines && lines != [] && IsPackageLine(lines[0])
    ensures ExtractGoCode(reply) == Success(Join(lines, "\n"))
  {
    assert lines[0..] == lines;
  }

  // ---------------------------------------------------------------------------
  // convert_python_to_go, both sides of the merge conflict
  // ---------------------------------------------------------------------------

  datatype ConvertError =
    | FileNotFound(path: string)
    | ReadFailed(reason: string)
    | GenerationFailed(reason: string)
    | NoGoCode(message: string)
    | MissingMain

  /**
   * The `HEAD` version: a missing file fails before generating; the reply goes
   * through `extract_go_code`, and code without `func main()` is rejected.
   */
  function ConvertHead(pythonFile: string, file: FileRead, b: Backends): (r: Result<string, ConvertError>)
    ensures file.Missing? ==> r == Failure(FileNotFound(pythonFile))
    ensures file.Unreadable? ==> r == Failure(ReadFailed(file.reason))
    ensures file.Contents? ==>
      var g := SafeGenerate(b, BuildPrompt(file.text, pythonFile)).outcome;
      r == (if g.Failure? then Failure(GenerationFailed(g.error))
            else match ExtractGoCode(g.value)
              case Failure(msg) => Failure(NoGoCode(msg))
              case Success(code) => if Contains(code, "func main()") then Success(code) else Failure(MissingMain))
    ensures r.Success? ==>
      && file.Contents?
      && SafeGenerate(b, BuildPrompt(file.text, pythonFile)).outcome.Success?
      && Success(r.value) == ExtractGoCode(SafeGenerate(b, BuildPrompt(file.text, pythonFile)).outcome.value)
      && Contains(r.value, "func main()")
  {
    match file
    case Missing => Failure(FileNotFound(pythonFile))
    case Unreadable(reason) => Failure(ReadFailed(reason))
    case Contents(pyCode) =>
      match SafeGenerate(b, BuildPrompt(pyCode, pythonFile)).outcome
      case Failure(e) => Failure(GenerationFailed(e))
      case Success(rawOutput) =>
        match ExtractGoCode(rawOutput)
        case Failure(msg) => Failure(NoGoCode(msg))
        case Success(goCode) =>
          if !Contains(goCode, "func main()") then Failure(MissingMain) else Success(goCode)
  }

  /** The `HEAD` version's result starts at the reply's first package line and has a `main`. */
  lemma ConvertHeadStartsAtPackage(pythonFile: string, file: FileRead, b: Backends)
    requires ConvertHead(pythonFile, file, b).Success?
    ensures var code := ConvertHead(pythonFile, file, b).value;
      SplitLines(code) != [] && IsPackageLine(SplitLines(code)[0]) && Contains(code, "func main()")
  {
    ExtractedStartsAtPackage(SafeGenerate(b, BuildPrompt(file.text, pythonFile)).outcome.value);
  }

  /** A generator outcome as the other version reports it: the text unchanged, an exception as a failure. */
  function Reported(outcome: Result<string, string>): (r: Result<string, ConvertError>)
    ensures r.Success? <==> outcome.Success?
    ensures r.Success? ==> r.value == outcome.value
    ensures r.Failure? ==> r.error == GenerationFailed(outcome.error)
  {
    match outcome
    case Success(text) => Success(text)
    case Failure(e) => Failure(GenerationFailed(e))
  }

  /**
   * The other version: code passed in is used as is and the file is not read;
   * otherwise a missing file fails before generating. The generator's reply is
   * returned unchanged.
   */
  function ConvertOther(pythonFile: string, codeContent: Option<string>, file: FileRead, b: Backends)
    : (r: Result<string, ConvertError>)
    ensures codeContent.None? && file.Missing? ==> r == Failure(FileNotFound(pythonFile))
    ensures codeContent.None? && file.Unreadable? ==> r == Failure(ReadFailed(file.reason))
    ensures codeContent.Some? ==> r == Reported(SafeGenerate(b, BuildPrompt(codeContent.value, pythonFile)).outcome)
    ensures codeContent.None? && file.Contents? ==> r == Reported(SafeGenerate(b, BuildPrompt(file.text, pythonFile)).outcome)
  {
    match codeContent
    case Some(code) => Reported(SafeGenerate(b, BuildPrompt(code, pythonFile)).outcome)
    case None =>
      match file
      case Missing => Failure(FileNotFound(pythonFile))
      case Unreadable(reason) => Failure(ReadFailed(reason))
      case Contents(text) => Reported(SafeGenerate(b, BuildPrompt(text, pythonFile)).outcome)
  }

  /** With code passed in, the file's state makes no difference. */
  lemma ConvertOtherIgnoresFile(pythonFile: string, code: string, f1: FileRead, f2: FileRead, b: Backends)
    ensures ConvertOther(pythonFile, Some(code), f1, b) == ConvertOther(pythonFile, Some(code), f2, b)
  {
  }

  /**
   * The two versions disagree: from the same readable file, a reply without a
   * package line is returned verbatim by the other version and refused by the
   * `HEAD` version.
   */
  lemma VersionsDisagree(pythonFile: string, pyCode: string, b: Backends, reply: string)
    requires SafeGenerate(b, BuildPrompt(pyCode, pythonFile)).outcome == Success(reply)
    requires forall l :: l in SplitLines(reply) ==> !IsPackageLine(l)
    ensures ConvertOther(pythonFile, None, Contents(pyCode), b) == Success(reply)
    ensures ConvertHead(pythonFile, Contents(pyCode), b) == Failure(NoGoCode(NoGoCodeMessage))
  {
    ExtractFailsWithoutPackageLine(reply);
  }

  // ---------------------------------------------------------------------------
  // save_go_file
  // ---------------------------------------------------------------------------

  /** `save_go_file`'s target: `<parent of the Python file>/migrations/<stem>.go`. */
  function GoFileFor(pythonFile: string): string {
    Child(Child(Parent(pythonFile), "migrations"), Stem(pythonFile) + ".go")
  }

  /** The Go file sits in a `migrations` directory beside the Python file and is named after its stem. */
  lemma GoFileForParts(pythonFile: string)
    requires pythonFile != [] && NoDoubleSlash(pythonFile)
    ensures Name(GoFileFor(pythonFile)) == Stem(pythonFile) + ".go"
    ensures Name(Parent(GoFileFor(pythonFile))) == "migrations"
    ensures Parent(Parent(GoFileFor(pythonFile))) == Parent(pythonFile)
  {
    ParentIsDir(pythonFile);
    ChildParts(Parent(pythonFile), "migrations");
    ChildParts(Child(Parent(pythonFile), "migrations"), Stem(pythonFile) + ".go");
  }

  /** `/tmp/x.py` is saved as `/tmp/migrations/x.go`. */
  lemma GoFileForAbsolute()
    ensures GoFileFor("/tmp/x.py") == "/tmp/migrations/x.go"
  {
    var p := "/tmp/x.py";
    assert RFind(p, '/') == 4 by {
      RFindSeparator("/tmp", '/', "x.py");
      assert p == "/tmp" + ['/'] + "x.py";
    }
    assert Parent(p) == "/tmp" by { assert p[..4] == "/tmp"; }
    assert Name(p) == "x.py" by { assert p[5..] == "x.py"; }
    assert Stem(p) == "x" by {
      XPyDot();
      assert "x.py"[..1] == "x";
    }
  }

  /** The suffix dot of `x.py`. */
  lemma XPyDot()
    ensures RFind("x.py", '.') == 1
  {
    RFindSeparator("x", '.', "py");
    assert "x.py" == "x" + ['.'] + "py";
  }

  /** A file named without a directory is saved under `migrations/` in the working directory. */
  lemma GoFileForBare(name: string)
    requires '/' !in name
    ensures GoFileFor(name) == "migrations/" + Stem(name) + ".go"
  {
    var file := Stem(name) + ".go";
    assert Parent(name) == "." by { RFindAbsent(name, '/'); }
    assert Child(".", "migrations") == "migrations";
    assert Child("migrations", file) == "migrations" + "/" + file;
    assert "migrations" + "/" == "migrations/";
    AppendAssoc("migrations/", Stem(name), ".go");
  }

  /** A bare `x.py` is saved as `migrations/x.go`, relative to the working directory. */
  lemma GoFileForRelative()
    ensures GoFileFor("x.py") == "migrations/x.go"
  {
    assert '/' !in "x.py";
    GoFileForBare("x.py");
    StemOfXPy();
    assert "migrations/" + "x" + ".go" == "migrations/x.go";
  }

  /** The stem of `x.py` is `x`. */
  lemma StemOfXPy()
    ensures Stem("x.py") == "x"
  {
    RFindAbsent("x.py", '/');
    assert Name("x.py") == "x.py" by { assert "x.py"[0..] == "x.py"; }
    XPyDot();
    assert "x.py"[..1] == "x";
  }
}
