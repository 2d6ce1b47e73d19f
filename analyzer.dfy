/**
 * The fact extractor of Analyzer/analyzer.py: one pass over the walk of each
 * file appends function, class and call records to three module-level lists,
 * remembering the last function definition seen as the caller of later calls.
 * The module-level script runs that over every `.py` file of a directory tree,
 * and does so twice.
 */
module Analyzer {
  import opened Wrappers
  import opened PyText
  import opened Sequences
  import opened Walk

  /** A `{name, file, line}` record of a function or a class. */
  datatype Declaration = Declaration(name: string, file: string, line: nat)

  /** A `{caller, callee, file}` record. */
  datatype CallRecord = CallRecord(caller: string, callee: string, file: string)

  // ---------------------------------------------------------------------------
  // What one file contributes
  // ---------------------------------------------------------------------------

  /** The function record a node adds: one for a function definition. */
  function NodeFunctions(path: string, node: Node): seq<Declaration> {
    if node.FunctionDef? then [Declaration(node.name, path, node.line)] else []
  }

  /** The class record a node adds: one for a class definition. */
  function NodeClasses(path: string, node: Node): seq<Declaration> {
    if node.ClassDef? then [Declaration(node.name, path, node.line)] else []
  }

  /** The call record a node adds: one for a bare-name call while a (truthy) function is current. */
  function NodeCalls(path: string, current: Option<string>, node: Node): seq<CallRecord> {
    if node.NameCall? && Truthy(current) then [CallRecord(current.value, node.callee, path)] else []
  }

  /** The function records of one walk, in visiting order. */
  function Functions(path: string, walk: seq<Node>): seq<Declaration> {
    if walk == [] then []
    else
      var last := walk[|walk| - 1];
      Functions(path, walk[..|walk| - 1]) + NodeFunctions(path, last)
  }

  /** The class records of one walk, in visiting order. */
  function Classes(path: string, walk: seq<Node>): seq<Declaration> {
    if walk == [] then []
    else
      var last := walk[|walk| - 1];
      Classes(path, walk[..|walk| - 1]) + NodeClasses(path, last)
  }

  /** `current_function` after visiting `walk`: the name of the last function definition in it. */
  function CurrentFunction(walk: seq<Node>): Option<string> {
    if walk == [] then None
    else
      var last := walk[|walk| - 1];
      if last.FunctionDef? then Some(last.name) else CurrentFunction(walk[..|walk| - 1])
  }

  /** `current_function` is unset exactly when no `def` was visited. */
  lemma {:induction false} NoCurrentFunctionWithoutDefinition(walk: seq<Node>)
    ensures CurrentFunction(walk).None? <==> forall i :: 0 <= i < |walk| ==> !walk[i].FunctionDef?
  {
    if walk != [] {
      var n := |walk| - 1;
      var prefix := walk[..n];
      NoCurrentFunctionWithoutDefinition(prefix);
      if !walk[n].FunctionDef? {
        assert forall i :: 0 <= i < n ==> prefix[i] == walk[i];
      }
    }
  }

  /** A set `current_function` is the name of the last `def` visited. */
  lemma {:induction false} CurrentFunctionIsLastDefinition(walk: seq<Node>)
    requires CurrentFunction(walk).Some?
    ensures exists i :: && 0 <= i < |walk| && walk[i].FunctionDef? && walk[i].name == CurrentFunction(walk).value
                        && forall k :: i < k < |walk| ==> !walk[k].FunctionDef?
  {
    var n := |walk| - 1;
    if !walk[n].FunctionDef? {
      var prefix := walk[..n];
      CurrentFunctionIsLastDefinition(prefix);
      var i :| && 0 <= i < |prefix| && prefix[i].FunctionDef? && prefix[i].name == CurrentFunction(prefix).value
               && forall k :: i < k < |prefix| ==> !prefix[k].FunctionDef?;
      assert walk[i] == prefix[i];
      forall k | i < k < |walk| ensures !walk[k].FunctionDef? {
        if k < n {
          assert walk[k] == prefix[k];
        }
      }
    }
  }

  /** Python's truth value of `current_function`: set and not the empty string. */
  predicate Truthy(current: Option<string>) {
    current.Some? && current.value != ""
  }

  /** The call records of one walk: each bare-name call, if a function was seen before it. */
  function Calls(path: string, walk: seq<Node>): seq<CallRecord> {
    if walk == [] then []
    else
      var last := walk[|walk| - 1];
      Calls(path, walk[..|walk| - 1]) + NodeCalls(path, CurrentFunction(walk[..|walk| - 1]), last)
  }

  /** Every record of a walk carries the analysed file's path, and every call record a non-empty caller. */
  lemma {:induction false} RecordsCarryPath(path: string, walk: seq<Node>)
    ensures forall d :: d in Functions(path, walk) ==> d.file == path
    ensures forall d :: d in Classes(path, walk) ==> d.file == path
    ensures forall c :: c in Calls(path, walk) ==> c.file == path && c.caller != ""
  {
    if walk != [] {
      RecordsCarryPath(path, walk[..|walk| - 1]);
    }
  }

  /** What visiting node `i` adds to the records of the walk before it. */
  lemma WalkStep(path: string, walk: seq<Node>, i: nat)
    requires i < |walk|
    ensures Functions(path, walk[..i + 1]) == Functions(path, walk[..i]) + NodeFunctions(path, walk[i])
    ensures Classes(path, walk[..i + 1]) == Classes(path, walk[..i]) + NodeClasses(path, walk[i])
    ensures Calls(path, walk[..i + 1]) == Calls(path, walk[..i]) + NodeCalls(path, CurrentFunction(walk[..i]), walk[i])
    ensures CurrentFunction(walk[..i + 1])
              == if walk[i].FunctionDef? then Some(walk[i].name) else CurrentFunction(walk[..i])
  {
    assert walk[..i + 1][..i] == walk[..i];
    assert walk[..i + 1][i] == walk[i];
  }

  // ---------------------------------------------------------------------------
  // analyze_file
  // ---------------------------------------------------------------------------

  /** The three module-level accumulators. */
  class Analysis {
    var functionsData: seq<Declaration>
    var classesData: seq<Declaration>
    var callsData: seq<CallRecord>

    constructor()
      ensures functionsData == [] && classesData == [] && callsData == []
    {
      functionsData := [];
      classesData := [];
      callsData := [];
    }

    /**
     * `analyze_file(file_path)`: a read error propagates before anything is
     * appended; a file that does not parse appends nothing; otherwise the walk's
     * records are appended to the earlier ones, which stay as they were.
     */
    method AnalyzeFile(filePath: string, source: Source) returns (r: Result<(), string>)
      modifies this
      ensures source.ReadFailed? <==> r.Failure?
      ensures r.Failure? ==> r.error == source.reason
      ensures functionsData == old(functionsData) + Functions(filePath, Walked(source))
      ensures classesData == old(classesData) + Classes(filePath, Walked(source))
      ensures callsData == old(callsData) + Calls(filePath, Walked(source))
    {
      if source.ReadFailed? {
        return Failure(source.reason);
      }
      if source.SyntaxError? {
        return Success(());
      }
      var walk := source.walk;
      var currentFunction: Option<string> := None;
      for i := 0 to |walk|
        invariant functionsData == old(functionsData) + Functions(filePath, walk[..i])
        invariant classesData == old(classesData) + Classes(filePath, walk[..i])
        invariant callsData == old(callsData) + Calls(filePath, walk[..i])
        invariant currentFunction == CurrentFunction(walk[..i])
      {
        WalkStep(filePath, walk, i);
        currentFunction := Visit(filePath, currentFunction, walk[i]);
        AppendAssoc(old(functionsData), Functions(filePath, walk[..i]), NodeFunctions(filePath, walk[i]));
        AppendAssoc(old(classesData), Classes(filePath, walk[..i]), NodeClasses(filePath, walk[i]));
        AppendAssoc(old(callsData), Calls(filePath, walk[..i]),
                    NodeCalls(filePath, CurrentFunction(walk[..i]), walk[i]));
      }
      assert walk[..|walk|] == walk;
      r := Success(());
    }

    /** The body of the walk loop: the records one node adds, and the function current after it. */
    method Visit(filePath: string, currentFunction: Option<string>, node: Node) returns (next: Option<string>)
      modifies this
      ensures functionsData == old(functionsData) + NodeFunctions(filePath, node)
      ensures classesData == old(classesData) + NodeClasses(filePath, node)
      ensures callsData == old(callsData) + NodeCalls(filePath, currentFunction, node)
      ensures next == if node.FunctionDef? then Some(node.name) else currentFunction
    {
      next := currentFunction;
      if node.FunctionDef? {
        functionsData := functionsData + [Declaration(node.name, filePath, node.line)];
        next := Some(node.name);
      }
      if node.ClassDef? {
        classesData := classesData + [Declaration(node.name, filePath, node.line)];
      }
      if node.NameCall? || node.OtherCall? {
        if node.NameCall? {
          var calledFunction := node.callee;
          if currentFunction.Some? && currentFunction.value != "" {
            callsData := callsData + [CallRecord(currentFunction.value, calledFunction, filePath)];
          }
        }
      }
    }
  }

  // ---------------------------------------------------------------------------
  // Properties of one file's records
  // ---------------------------------------------------------------------------

  /** One function record per function definition, in order, carrying its name and line. */
  lemma {:induction false} FunctionsAreTheDefinitions(path: string, walk: seq<Node>)
    ensures |Functions(path, walk)| == |Filter(walk, IsFunctionDef)|
    ensures forall k :: 0 <= k < |Functions(path, walk)| ==>
      && Filter(walk, IsFunctionDef)[k].FunctionDef?
      && Functions(path, walk)[k] == Declaration(Filter(walk, IsFunctionDef)[k].name, path, Filter(walk, IsFunctionDef)[k].line)
  {
    if walk != [] {
      FunctionsAreTheDefinitions(path, walk[..|walk| - 1]);
    }
  }

  /** A call record exists only for a bare-name call, with the last function defined before it as caller. */
  lemma {:induction false} CallRecordsAreAttributed(path: string, walk: seq<Node>)
    ensures forall c :: c in Calls(path, walk) ==>
      exists j :: 0 <= j < |walk| && walk[j] == NameCall(c.callee) && CurrentFunction(walk[..j]) == Some(c.caller)
  {
    if walk != [] {
      var n := |walk| - 1;
      var prefix := walk[..n];
      CallRecordsAreAttributed(path, prefix);
      forall c | c in Calls(path, walk)
        ensures exists j :: 0 <= j < |walk| && walk[j] == NameCall(c.callee) && CurrentFunction(walk[..j]) == Some(c.caller)
      {
        if c in Calls(path, prefix) {
          var j :| 0 <= j < |prefix| && prefix[j] == NameCall(c.callee) && CurrentFunction(prefix[..j]) == Some(c.caller);
          assert prefix[..j] == walk[..j];
        } else {
          assert walk[..n] == prefix;
        }
      }
    }
  }

  /** Every bare-name call made after a function definition with a non-empty name gets a record. */
  lemma {:induction false} EveryAttributedCallIsRecorded(path: string, walk: seq<Node>)
    ensures forall j :: 0 <= j < |walk| && walk[j].NameCall? && Truthy(CurrentFunction(walk[..j])) ==>
      CallRecord(CurrentFunction(walk[..j]).value, walk[j].callee, path) in Calls(path, walk)
  {
    if walk != [] {
      var n := |walk| - 1;
      var prefix := walk[..n];
      EveryAttributedCallIsRecorded(path, prefix);
      forall j | 0 <= j < |walk| && walk[j].NameCall? && Truthy(CurrentFunction(walk[..j]))
        ensures CallRecord(CurrentFunction(walk[..j]).value, walk[j].callee, path) in Calls(path, walk)
      {
        if j < n {
          assert prefix[..j] == walk[..j] && prefix[j] == walk[j];
        }
      }
    }
  }

  /** Calls visited before any function definition are dropped. */
  lemma {:induction false} CallsBeforeAnyFunctionDropped(path: string, walk: seq<Node>)
    requires forall i :: 0 <= i < |walk| ==> !walk[i].FunctionDef?
    ensures Calls(path, walk) == []
  {
    if walk != [] {
      var prefix := walk[..|walk| - 1];
      CallsBeforeAnyFunctionDropped(path, prefix);
      NoCurrentFunctionWithoutDefinition(prefix);
    }
  }

  /** A node that can change the call records: a function definition or a bare-name call. */
  predicate ShapesCalls(n: Node) {
    n.FunctionDef? || n.NameCall?
  }

  /** Only function definitions move `current_function`. */
  lemma {:induction false} OnlyDefinitionsMoveCurrent(walk: seq<Node>)
    ensures CurrentFunction(Filter(walk, ShapesCalls)) == CurrentFunction(walk)
  {
    if walk != [] {
      var n := |walk| - 1;
      var prefix := walk[..n];
      OnlyDefinitionsMoveCurrent(prefix);
      var kept := Filter(prefix, ShapesCalls);
      if ShapesCalls(walk[n]) {
        assert Filter(walk, ShapesCalls) == kept + [walk[n]];
        assert (kept + [walk[n]])[..|kept|] == kept;
      } else {
        assert Filter(walk, ShapesCalls) == kept + [];
        assert kept + [] == kept;
      }
    }
  }

  /**
   * Other calls (attribute calls among them), classes and all other nodes make
   * no difference to the call records.
   */
  lemma {:induction false} OnlyDefinitionsAndNameCallsMatter(path: string, walk: seq<Node>)
    ensures Calls(path, Filter(walk, ShapesCalls)) == Calls(path, walk)
  {
    if walk != [] {
      var n := |walk| - 1;
      var prefix := walk[..n];
      OnlyDefinitionsAndNameCallsMatter(path, prefix);
      OnlyDefinitionsMoveCurrent(prefix);
      var kept := Filter(prefix, ShapesCalls);
      if ShapesCalls(walk[n]) {
        var k2 := kept + [walk[n]];
        assert Filter(walk, ShapesCalls) == k2;
        assert k2[..|k2| - 1] == kept;
        assert Calls(path, k2) == Calls(path, kept)
          + (if walk[n].NameCall? && Truthy(CurrentFunction(kept)) then [CallRecord(CurrentFunction(kept).value, walk[n].callee, path)] else []);
      } else {
        assert Filter(walk, ShapesCalls) == kept;
      }
    }
  }

  /** Nodes other than function definitions leave `current_function` as it was. */
  lemma {:induction false} CurrentFunctionSkips(a: seq<Node>, b: seq<Node>)
    requires forall i :: 0 <= i < |b| ==> !b[i].FunctionDef?
    ensures CurrentFunction(a + b) == CurrentFunction(a)
  {
    if b != [] {
      var b', x := b[..|b| - 1], b[|b| - 1];
      calc {
        CurrentFunction(a + b);
        { assert a + b == (a + b') + [x]; }
        CurrentFunction((a + b') + [x]);
        { assert ((a + b') + [x])[..|a + b'|] == a + b'; }
        CurrentFunction(a + b');
        { CurrentFunctionSkips(a, b'); }
        CurrentFunction(a);
      }
    } else {
      assert a + b == a;
    }
  }

  /** Nodes other than bare-name calls add no call record. */
  lemma {:induction false} CallsSkip(path: string, a: seq<Node>, b: seq<Node>)
    requires forall i :: 0 <= i < |b| ==> !b[i].NameCall?
    ensures Calls(path, a + b) == Calls(path, a)
  {
    if b != [] {
      var b', x := b[..|b| - 1], b[|b| - 1];
      calc {
        Calls(path, a + b);
        { assert a + b == (a + b') + [x]; }
        Calls(path, (a + b') + [x]);
        { CallsSnoc(path, a + b', x); }
        Calls(path, a + b') + NodeCalls(path, CurrentFunction(a + b'), x);
        { assert NodeCalls(path, CurrentFunction(a + b'), x) == []; }
        Calls(path, a + b');
        { CallsSkip(path, a, b'); }
        Calls(path, a);
      }
    } else {
      assert a + b == a;
    }
  }

  /** Visiting one more node: what it adds to the call records and how it moves the current function. */
  lemma CallsSnoc(path: string, walk: seq<Node>, node: Node)
    ensures Calls(path, walk + [node]) == Calls(path, walk) + NodeCalls(path, CurrentFunction(walk), node)
    ensures CurrentFunction(walk + [node]) == if node.FunctionDef? then Some(node.name) else CurrentFunction(walk)
  {
    assert (walk + [node])[..|walk|] == walk;
  }

  // ---------------------------------------------------------------------------
  // The module-level script
  // ---------------------------------------------------------------------------

  /** A file that `os.walk` lists: the directory it was found in, its name, and its source. */
  datatype Entry = Entry(root: string, name: string, source: Source)

  /** `os.path.join(root, name)` for a plain file name. */
  function JoinPath(root: string, name: string): string {
    if root == [] || root[|root| - 1] == '/' then root + name else root + "/" + name
  }

  predicate IsPy(e: Entry) {
    EndsWith(e.name, ".py")
  }

  /** No `.py` file fails to be read. */
  predicate AllReadable(entries: seq<Entry>) {
    forall e :: e in entries ==> Readable(e)
  }

  /** `analyze_file` does not raise on this entry: it is not a `.py` file, or it can be read. */
  predicate Readable(e: Entry) {
    !(IsPy(e) && e.source.ReadFailed?)
  }

  /** What `analyze_file` appends for one listed file: nothing unless it is a `.py` file. */
  function EntryFunctions(e: Entry): seq<Declaration> {
    if IsPy(e) then Functions(JoinPath(e.root, e.name), Walked(e.source)) else []
  }

  function EntryClasses(e: Entry): seq<Declaration> {
    if IsPy(e) then Classes(JoinPath(e.root, e.name), Walked(e.source)) else []
  }

  function EntryCalls(e: Entry): seq<CallRecord> {
    if IsPy(e) then Calls(JoinPath(e.root, e.name), Walked(e.source)) else []
  }

  /** The function records of every `.py` file, in listing order. */
  function AllFunctions(entries: seq<Entry>): seq<Declaration> {
    if entries == [] then [] else AllFunctions(entries[..|entries| - 1]) + EntryFunctions(entries[|entries| - 1])
  }

  function AllClasses(entries: seq<Entry>): seq<Declaration> {
    if entries == [] then [] else AllClasses(entries[..|entries| - 1]) + EntryClasses(entries[|entries| - 1])
  }

  function AllCalls(entries: seq<Entry>): seq<CallRecord> {
    if entries == [] then [] else AllCalls(entries[..|entries| - 1]) + EntryCalls(entries[|entries| - 1])
  }

  /** The number of function definitions in all `.py` files. */
  function DefinitionCount(entries: seq<Entry>): nat {
    if entries == [] then 0
    else
      var e := entries[|entries| - 1];
      DefinitionCount(entries[..|entries| - 1])
      + (if IsPy(e) then |Filter(Walked(e.source), IsFunctionDef)| else 0)
  }

  /** The records of one more entry follow those of the entries before it. */
  lemma ScanStep(entries: seq<Entry>, i: nat)
    requires i < |entries|
    ensures AllReadable(entries[..i + 1]) <==> AllReadable(entries[..i]) && Readable(entries[i])
    ensures AllFunctions(entries[..i + 1]) == AllFunctions(entries[..i]) + EntryFunctions(entries[i])
    ensures AllClasses(entries[..i + 1]) == AllClasses(entries[..i]) + EntryClasses(entries[i])
    ensures AllCalls(entries[..i + 1]) == AllCalls(entries[..i]) + EntryCalls(entries[i])
  {
    assert entries[..i + 1][..i] == entries[..i];
    assert entries[..i + 1] == entries[..i] + [entries[i]];
  }

  /** The body of the scan loop: `analyze_file` on a `.py` file, nothing for any other file. */
  method ScanEntry(a: Analysis, e: Entry) returns (r: Result<(), string>)
    modifies a
    ensures r.Failure? <==> !Readable(e)
    ensures a.functionsData == old(a.functionsData) + EntryFunctions(e)
    ensures a.classesData == old(a.classesData) + EntryClasses(e)
    ensures a.callsData == old(a.callsData) + EntryCalls(e)
  {
    if IsPy(e) {
      var filepath := JoinPath(e.root, e.name);
      r := a.AnalyzeFile(filepath, e.source);
    } else {
      r := Success(());
    }
  }

  /** One scan over the listing: `analyze_file` on each `.py` file; the first read error ends it. */
  method Scan(a: Analysis, entries: seq<Entry>) returns (r: Result<(), string>)
    modifies a
    ensures r.Success? <==> AllReadable(entries)
    ensures r.Success? ==> a.functionsData == old(a.functionsData) + AllFunctions(entries)
    ensures r.Success? ==> a.classesData == old(a.classesData) + AllClasses(entries)
    ensures r.Success? ==> a.callsData == old(a.callsData) + AllCalls(entries)
  {
    for i := 0 to |entries|
      invariant AllReadable(entries[..i])
      invariant a.functionsData == old(a.functionsData) + AllFunctions(entries[..i])
      invariant a.classesData == old(a.classesData) + AllClasses(entries[..i])
      invariant a.callsData == old(a.callsData) + AllCalls(entries[..i])
    {
      ScanStep(entries, i);
      var res := ScanEntry(a, entries[i]);
      AppendAssoc(old(a.functionsData), AllFunctions(entries[..i]), EntryFunctions(entries[i]));
      AppendAssoc(old(a.classesData), AllClasses(entries[..i]), EntryClasses(entries[i]));
      AppendAssoc(old(a.callsData), AllCalls(entries[..i]), EntryCalls(entries[i]));
      if res.Failure? {
        assert entries[i] in entries;
        return res;
      }
    }
    assert entries[..|entries|] == entries;
    r := Success(());
  }

  /** The script as written: two scans of the same listing into the same lists. */
  method ScriptAsWritten(entries: seq<Entry>) returns (a: Analysis, r: Result<(), string>)
    ensures r.Success? <==> AllReadable(entries)
    ensures r.Success? ==> a.functionsData == ScriptFunctions(entries)
    ensures r.Success? ==> a.classesData == AllClasses(entries) + AllClasses(entries)
    ensures r.Success? ==> a.callsData == AllCalls(entries) + AllCalls(entries)
  {
    a := new Analysis();
    r := Scan(a, entries);
    if r.Failure? {
      return;
    }
    assert a.functionsData == AllFunctions(entries);
    assert a.classesData == AllClasses(entries);
    assert a.callsData == AllCalls(entries);
    r := Scan(a, entries);
  }

  /** The function records the script as written saves. */
  function ScriptFunctions(entries: seq<Entry>): seq<Declaration> {
    AllFunctions(entries) + AllFunctions(entries)
  }

  /** The script as intended: one scan, so one record per function definition. */
  method ScriptOnce(entries: seq<Entry>) returns (a: Analysis, r: Result<(), string>)
    ensures r.Success? <==> AllReadable(entries)
    ensures r.Success? ==> a.functionsData == AllFunctions(entries)
    ensures r.Success? ==> a.classesData == AllClasses(entries)
    ensures r.Success? ==> a.callsData == AllCalls(entries)
  {
    a := new Analysis();
    r := Scan(a, entries);
  }

  /** One scan yields exactly one function record per function definition. */
  lemma {:induction false} OneRecordPerDefinition(entries: seq<Entry>)
    ensures |AllFunctions(entries)| == DefinitionCount(entries)
  {
    if entries != [] {
      var e := entries[|entries| - 1];
      OneRecordPerDefinition(entries[..|entries| - 1]);
      FunctionsAreTheDefinitions(JoinPath(e.root, e.name), Walked(e.source));
    }
  }

  /** The script as written saves two records per function definition, each one twice over. */
  lemma ScriptDuplicatesEveryRecord(entries: seq<Entry>)
    ensures |ScriptFunctions(entries)| == 2 * DefinitionCount(entries)
    ensures forall d :: multiset(ScriptFunctions(entries))[d] == 2 * multiset(AllFunctions(entries))[d]
  {
    OneRecordPerDefinition(entries);
  }

  /** A single file with a single `def` is saved as two identical records. */
  lemma ScriptDuplicatesExample()
    ensures ScriptFunctions([Entry("erp", "a.py", Parsed([FunctionDef("f", 1)]))])
         == [Declaration("f", "erp/a.py", 1), Declaration("f", "erp/a.py", 1)]
  {
    var e := Entry("erp", "a.py", Parsed([FunctionDef("f", 1)]));
    var d := Declaration("f", "erp/a.py", 1);
    assert IsPy(e) by { assert "a.py"[1..] == ".py"; }
    assert JoinPath("erp", "a.py") == "erp/a.py";
    assert Functions("erp/a.py", [FunctionDef("f", 1)]) == [d] by {
      assert [FunctionDef("f", 1)][..0] == [];
    }
    assert EntryFunctions(e) == [d];
    assert AllFunctions([e]) == [d] by {
      assert [e][..0] == [];
    }
  }

  // ---------------------------------------------------------------------------
  // Call attribution under breadth-first visiting order
  // ---------------------------------------------------------------------------

  /**
   * The call records a scope-aware visit would produce: each bare-name call is
   * attributed to the innermost function definition that encloses it.
   */
  function ScopedCalls(t: Tree, current: Option<string>, path: string): seq<CallRecord>
    decreases t
  {
    var inner := if t.node.FunctionDef? then Some(t.node.name) else current;
    (if t.node.NameCall? && Truthy(current) then [CallRecord(current.value, t.node.callee, path)] else [])
    + ForestCalls(t.children, inner, path)
  }

  function ForestCalls(ts: seq<Tree>, current: Option<string>, path: string): seq<CallRecord>
    decreases ts
  {
    if ts == [] then [] else ScopedCalls(ts[0], current, path) + ForestCalls(ts[1..], current, path)
  }

  /** No function definition anywhere in a forest. */
  predicate NoDefinitions(ts: seq<Tree>)
    decreases ts
  {
    forall i :: 0 <= i < |ts| ==> !ts[i].node.FunctionDef? && NoDefinitions(ts[i].children)
  }

  /** Every call in a body without nested definitions is attributed to the function whose body it is. */
  lemma {:induction false} BodyCallsBelongToTheirFunction(ts: seq<Tree>, f: string, path: string)
    requires f != "" && NoDefinitions(ts)
    ensures forall c :: c in ForestCalls(ts, Some(f), path) ==> c.caller == f
    decreases ts
  {
    if ts != [] {
      assert !ts[0].node.FunctionDef? && NoDefinitions(ts[0].children);
      BodyCallsBelongToTheirFunction(ts[0].children, f, path);
      assert NoDefinitions(ts[1..]) by {
        forall i | 0 <= i < |ts[1..]| ensures !ts[1..][i].node.FunctionDef? && NoDefinitions(ts[1..][i].children) {
          assert ts[1..][i] == ts[i + 1];
        }
      }
      BodyCallsBelongToTheirFunction(ts[1..], f, path);
    }
  }

  /** A call statement in a function body: an expression node over the call. */
  function CallStatement(callee: string): Tree {
    Tree(OtherNode, [Tree(NameCall(callee), [])])
  }

  /** `def name(): callee()`: a `def` node over its arguments node and a one-call body. */
  function OneCallFunction(name: string, line: nat, callee: string): Tree {
    Tree(FunctionDef(name, line), [Tree(OtherNode, []), CallStatement(callee)])
  }

  /** `def a(): foo()` followed by `def b(): bar()` in one module. */
  function TwoFunctions(a: string, la: nat, foo: string, b: string, lb: nat, bar: string): Tree {
    Tree(OtherNode, [OneCallFunction(a, la, foo), OneCallFunction(b, lb, bar)])
  }

  /** The order `ast.walk` visits two sibling definitions in: both `def` nodes before either body. */
  lemma TwoFunctionsWalk(a: string, la: nat, foo: string, b: string, lb: nat, bar: string)
    ensures Bfs([TwoFunctions(a, la, foo, b, lb, bar)])
         == [OtherNode, FunctionDef(a, la), FunctionDef(b, lb), OtherNode, OtherNode,
             OtherNode, OtherNode, NameCall(foo), NameCall(bar)]
  {
    var defA := OneCallFunction(a, la, foo);
    var defB := OneCallFunction(b, lb, bar);
    var args := Tree(OtherNode, []);
    var fooCall := Tree(NameCall(foo), []);
    var barCall := Tree(NameCall(bar), []);
    var callA := CallStatement(foo);
    var callB := CallStatement(bar);
    var tail := [NameCall(foo), NameCall(bar)];
    assert Bfs([barCall]) == [NameCall(bar)] by {
      BfsStep([barCall]);
      assert [barCall][1..] + barCall.children == [];
    }
    assert Bfs([fooCall, barCall]) == tail by {
      BfsStep([fooCall, barCall]);
      assert [fooCall, barCall][1..] + fooCall.children == [barCall];
    }
    assert Bfs([callB, fooCall]) == [OtherNode] + tail by {
      BfsStep([callB, fooCall]);
      assert [callB, fooCall][1..] + callB.children == [fooCall, barCall];
    }
    assert Bfs([args, callB, fooCall]) == [OtherNode, OtherNode] + tail by {
      BfsStep([args, callB, fooCall]);
      assert [args, callB, fooCall][1..] + args.children == [callB, fooCall];
    }
    assert Bfs([callA, args, callB]) == [OtherNode, OtherNode, OtherNode] + tail by {
      BfsStep([callA, args, callB]);
      assert [callA, args, callB][1..] + callA.children == [args, callB, fooCall];
    }
    assert Bfs([args, callA, args, callB]) == [OtherNode, OtherNode, OtherNode, OtherNode] + tail by {
      BfsStep([args, callA, args, callB]);
      assert [args, callA, args, callB][1..] + args.children == [callA, args, callB];
    }
    assert Bfs([defB, args, callA]) == [FunctionDef(b, lb), OtherNode, OtherNode, OtherNode, OtherNode] + tail by {
      BfsStep([defB, args, callA]);
      assert [defB, args, callA][1..] + defB.children == [args, callA, args, callB];
    }
    assert Bfs([defA, defB])
        == [FunctionDef(a, la), FunctionDef(b, lb), OtherNode, OtherNode, OtherNode, OtherNode] + tail by {
      BfsStep([defA, defB]);
      assert [defA, defB][1..] + defA.children == [defB, args, callA];
    }
    var t := TwoFunctions(a, la, foo, b, lb, bar);
    BfsStep([t]);
    assert [t][1..] + t.children == [defA, defB];
  }

  /**
   * Level-by-level visiting reaches both definitions before either body, so
   * both calls are attributed to `b`, though `foo` is called from `a`.
   */
  lemma BreadthFirstMisattributes(path: string, a: string, la: nat, foo: string, b: string, lb: nat, bar: string)
    requires b != ""
    ensures Calls(path, Bfs([TwoFunctions(a, la, foo, b, lb, bar)]))
         == [CallRecord(b, foo, path), CallRecord(b, bar, path)]
  {
    TwoFunctionsWalk(a, la, foo, b, lb, bar);
    var pre := DefinitionsFirst(a, la, b, lb);
    DefinitionsFirstCalls(path, a, la, b, lb);
    assert Bfs([TwoFunctions(a, la, foo, b, lb, bar)]) == pre + [NameCall(foo)] + [NameCall(bar)];
    CallsSnoc(path, pre, NameCall(foo));
    CallsSnoc(path, pre + [NameCall(foo)], NameCall(bar));
  }

  /** The first level of the walk of two sibling definitions and the arguments and body nodes below them. */
  function DefinitionsFirst(a: string, la: nat, b: string, lb: nat): seq<Node> {
    [OtherNode, FunctionDef(a, la), FunctionDef(b, lb), OtherNode, OtherNode, OtherNode, OtherNode]
  }

  /** After those nodes no call is recorded yet and the second definition is current. */
  lemma DefinitionsFirstCalls(path: string, a: string, la: nat, b: string, lb: nat)
    ensures Calls(path, DefinitionsFirst(a, la, b, lb)) == []
    ensures CurrentFunction(DefinitionsFirst(a, la, b, lb)) == Some(b)
  {
    var defs := [OtherNode, FunctionDef(a, la), FunctionDef(b, lb)];
    assert Calls(path, defs) == [] && CurrentFunction(defs) == Some(b) by {
      var w1: seq<Node> := [OtherNode];
      var w2 := w1 + [FunctionDef(a, la)];
      CallsSnoc(path, [], OtherNode);
      assert [] + [OtherNode] == w1;
      CallsSnoc(path, w1, FunctionDef(a, la));
      CallsSnoc(path, w2, FunctionDef(b, lb));
      assert w2 + [FunctionDef(b, lb)] == defs;
    }
    var others := [OtherNode, OtherNode, OtherNode, OtherNode];
    CallsSkip(path, defs, others);
    CurrentFunctionSkips(defs, others);
    assert defs + others == DefinitionsFirst(a, la, b, lb);
  }

  /** Scope-aware visiting attributes the call in a one-call function to that function, whatever was current before. */
  lemma ScopedCallsOfOneCallFunction(name: string, line: nat, callee: string, current: Option<string>, path: string)
    requires name != ""
    ensures ScopedCalls(OneCallFunction(name, line, callee), current, path) == [CallRecord(name, callee, path)]
  {
    var inner := Some(name);
    var args := Tree(OtherNode, []);
    var call := Tree(NameCall(callee), []);
    assert ScopedCalls(args, inner, path) == [];
    assert ScopedCalls(call, inner, path) == [CallRecord(name, callee, path)];
    assert ForestCalls([call], inner, path) == [CallRecord(name, callee, path)] by {
      assert [call][1..] == [];
    }
    assert ScopedCalls(CallStatement(callee), inner, path) == [CallRecord(name, callee, path)];
    assert ForestCalls([CallStatement(callee)], inner, path) == [CallRecord(name, callee, path)] by {
      assert [CallStatement(callee)][1..] == [];
    }
    assert ForestCalls([args, CallStatement(callee)], inner, path) == [CallRecord(name, callee, path)] by {
      assert [args, CallStatement(callee)][1..] == [CallStatement(callee)];
    }
  }

  /** Scope-aware visiting attributes each call to the definition it sits in. */
  lemma ScopedAttributionOfTwoFunctions(path: string, a: string, la: nat, foo: string, b: string, lb: nat, bar: string)
    requires a != "" && b != ""
    ensures ScopedCalls(TwoFunctions(a, la, foo, b, lb, bar), None, path)
         == [CallRecord(a, foo, path), CallRecord(b, bar, path)]
  {
    var defA := OneCallFunction(a, la, foo);
    var defB := OneCallFunction(b, lb, bar);
    ScopedCallsOfOneCallFunction(a, la, foo, None, path);
    ScopedCallsOfOneCallFunction(b, lb, bar, None, path);
    assert ForestCalls([defB], None, path) == [CallRecord(b, bar, path)] by {
      assert [defB][1..] == [];
    }
    assert ForestCalls([defA, defB], None, path) == [CallRecord(a, foo, path), CallRecord(b, bar, path)] by {
      assert [defA, defB][1..] == [defB];
    }
  }
}
