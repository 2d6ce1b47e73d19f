/**
 * The function-name scanner of the top-level analyzer.py: the names of the
 * `def`s of each `.py` file, and the running total over a directory tree.
 */
module FunctionScanner {
  import opened PyText
  import opened Sequences
  import opened Walk
  import Analyzer

  type Entry = Analyzer.Entry

  /** The names of the function definitions of a walk, in visiting order. */
  function DefinedNames(walk: seq<Node>): seq<string> {
    if walk == [] then []
    else
      var last := walk[|walk| - 1];
      DefinedNames(walk[..|walk| - 1]) + (if last.FunctionDef? then [last.name] else [])
  }

  /**
   * `extract_functions(file_path)`: the names of the file's function
   * definitions; nothing when the file cannot be read or parsed.
   */
  method ExtractFunctions(source: Source) returns (functions: seq<string>)
    ensures functions == DefinedNames(Walked(source))
    ensures !source.Parsed? ==> functions == []
  {
    if !source.Parsed? {
      return [];
    }
    var walk := source.walk;
    functions := [];
    for i := 0 to |walk|
      invariant functions == DefinedNames(walk[..i])
    {
      assert walk[..i + 1][..i] == walk[..i];
      var node := walk[i];
      if node.FunctionDef? {
        functions := functions + [node.name];
      }
    }
    assert walk[..|walk|] == walk;
  }

  /** The names are those of the function records that Analyzer/analyzer.py keeps for the same walk. */
  lemma {:induction false} NamesMatchRecords(path: string, walk: seq<Node>)
    ensures |DefinedNames(walk)| == |Analyzer.Functions(path, walk)|
    ensures forall k :: 0 <= k < |DefinedNames(walk)| ==> DefinedNames(walk)[k] == Analyzer.Functions(path, walk)[k].name
  {
    if walk != [] {
      NamesMatchRecords(path, walk[..|walk| - 1]);
    }
  }

  /** One name per function definition: as many as the walk has `def` nodes. */
  lemma NameCount(walk: seq<Node>)
    ensures |DefinedNames(walk)| == |Filter(walk, IsFunctionDef)|
  {
    NamesMatchRecords("", walk);
    Analyzer.FunctionsAreTheDefinitions("", walk);
  }

  /** The files that are printed: `.py` files with at least one function, with their names. */
  function Report(files: seq<Entry>): seq<(string, seq<string>)> {
    if files == [] then []
    else
      var f := files[|files| - 1];
      var names := DefinedNames(Walked(f.source));
      Report(files[..|files| - 1]) + (if Analyzer.IsPy(f) && names != [] then [(Analyzer.JoinPath(f.root, f.name), names)] else [])
  }

  /** The number of function definitions in all `.py` files. */
  function Total(files: seq<Entry>): nat {
    if files == [] then 0
    else
      var f := files[|files| - 1];
      Total(files[..|files| - 1]) + (if Analyzer.IsPy(f) then |DefinedNames(Walked(f.source))| else 0)
  }

  /** The sum of the lengths of the reported name lists. */
  function ReportedCount(report: seq<(string, seq<string>)>): nat {
    if report == [] then 0 else ReportedCount(report[..|report| - 1]) + |report[|report| - 1].1|
  }

  /**
   * The script: `total_functions` accumulates the number of names of each `.py`
   * file, and every file with at least one name is reported with its names.
   */
  method CountFunctions(files: seq<Entry>) returns (totalFunctions: nat, report: seq<(string, seq<string>)>)
    ensures totalFunctions == Total(files)
    ensures report == Report(files)
  {
    totalFunctions := 0;
    report := [];
    for i := 0 to |files|
      invariant totalFunctions == Total(files[..i])
      invariant report == Report(files[..i])
    {
      assert files[..i + 1][..i] == files[..i];
      var f := files[i];
      if Analyzer.IsPy(f) {
        var filepath := Analyzer.JoinPath(f.root, f.name);
        var functions := ExtractFunctions(f.source);
        if functions != [] {
          report := report + [(filepath, functions)];
          totalFunctions := totalFunctions + |functions|;
        }
      }
    }
    assert files[..|files|] == files;
  }

  /**
   * The total is the sum over the reported files: files without functions
   * add nothing, and no reported file has an empty list.
   */
  lemma {:induction false} TotalIsReportedSum(files: seq<Entry>)
    ensures Total(files) == ReportedCount(Report(files))
    ensures forall r :: r in Report(files) ==> r.1 != []
  {
    if files != [] {
      var f := files[|files| - 1];
      var rest := Report(files[..|files| - 1]);
      TotalIsReportedSum(files[..|files| - 1]);
      if Analyzer.IsPy(f) && DefinedNames(Walked(f.source)) != [] {
        var r := rest + [(Analyzer.JoinPath(f.root, f.name), DefinedNames(Walked(f.source)))];
        assert r[..|r| - 1] == rest;
        assert Report(files) == r;
      } else {
        assert Report(files) == rest + [] == rest;
        assert Total(files) == Total(files[..|files| - 1]);
      }
    }
  }
}
