/**
 * The retrieval-augmented answer of rag/rag_query.py: the retrieved chunks are
 * folded into a context, the prompt is sent through the provider fallback, and
 * the distinct files of the chunks are listed after the reply. The retriever
 * is a parameter; `Failure(e)` stands for an exception it raises.
 */
module RagQuery {
  import opened Wrappers
  import opened PyText
  import opened Generation

  /** A retrieved chunk: its `text` and its `file`. */
  datatype Hit = Hit(text: string, file: string)

  type Search = string -> Result<seq<Hit>, string>

  /** The context the loop accumulates: each text followed by a newline, in result order. */
  function ContextOf(hits: seq<Hit>): string {
    if hits == [] then []
    else ContextOf(hits[..|hits| - 1]) + hits[|hits| - 1].text + "\n"
  }

  /** Each chunk's text, in order, ends up in the context, and so does its line break. */
  lemma {:induction false} ContextHasEveryText(hits: seq<Hit>)
    ensures |ContextOf(hits)| >= |hits|
    ensures forall k :: 0 <= k < |hits| ==> Contains(ContextOf(hits), hits[k].text + "\n")
  {
    if hits != [] {
      var prefix := hits[..|hits| - 1];
      var last := hits[|hits| - 1];
      ContextHasEveryText(prefix);
      assert ContextOf(hits) == ContextOf(prefix) + (last.text + "\n") + [];
      ContainsMiddle(ContextOf(prefix), last.text + "\n", []);
      forall k | 0 <= k < |prefix| ensures Contains(ContextOf(hits), hits[k].text + "\n") {
        assert hits[k] == prefix[k];
        ContainsMiddle([], ContextOf(prefix), last.text + "\n");
        assert [] + ContextOf(prefix) + (last.text + "\n") == ContextOf(hits);
        ContainsTransitive(ContextOf(hits), ContextOf(prefix), hits[k].text + "\n");
      }
    }
  }

  const PromptHead := "\nYou are an expert on the ERPNext codebase.\n\n## Context\n"
  const QuestionHead := "\n\n## Question\n"
  const PromptTail := "\n\n## Instructions\n- Base your answer only on the provided context\n- Explain clearly\n- If code is relevant, include it\n"

  /** The prompt of `answer`. */
  function QaPrompt(context: string, question: string): string {
    PromptHead + context + QuestionHead + question + PromptTail
  }

  /** The prompt embeds the context and the question verbatim. */
  lemma QaPromptEmbeds(context: string, question: string)
    ensures Contains(QaPrompt(context, question), context)
    ensures Contains(QaPrompt(context, question), question)
  {
    ContainsMiddle(PromptHead, context, QuestionHead);
    ContainsExtended(PromptHead + context + QuestionHead, context, question);
    ContainsExtended(PromptHead + context + QuestionHead + question, context, PromptTail);
    ContainsMiddle(PromptHead + context + QuestionHead, question, PromptTail);
  }

  const RefHeader := "\n\n References:\n"

  /** The suffix listing the files in the given order. */
  function ReferencesText(order: seq<string>): string {
    RefHeader + Join(order, "\n")
  }

  /** The distinct files of the chunks: `set(references)`. */
  function FileSet(hits: seq<Hit>): set<string> {
    set h | h in hits :: h.file
  }

  predicate Distinct(order: seq<string>) {
    forall i, j :: 0 <= i < j < |order| ==> order[i] != order[j]
  }

  /** `order` lists each element of `files` exactly once, in some order. */
  predicate IsEnumeration(order: seq<string>, files: set<string>) {
    Distinct(order) && (forall f :: f in order ==> f in files) && (forall f :: f in files ==> f in order)
  }

  /** The iteration of a set: each element once, in an order the language leaves open. */
  method Enumerate(files: set<string>) returns (order: seq<string>)
    ensures IsEnumeration(order, files)
  {
    order := [];
    var rest := files;
    while rest != {}
      invariant Distinct(order)
      invariant forall f :: f in order ==> f in files && f !in rest
      invariant forall f :: f in files ==> f in order || f in rest
      invariant rest <= files
      decreases rest
    {
      var f :| f in rest;
      order := order + [f];
      rest := rest - {f};
    }
  }

  /**
   * What `answer(question)` may return: the retriever's exception; otherwise the
   * generation outcome, followed, when there were results and generation
   * succeeded, by the references header and each distinct file once.
   */
  ghost predicate IsAnswer(question: string, search: Search, b: Backends, response: Result<string, string>) {
    match search(question)
    case Failure(e) => response == Failure(e)
    case Success(hits) =>
      var g := SafeGenerate(b, QaPrompt(ContextOf(hits), question)).outcome;
      if g.Failure? || hits == [] then response == g
      else exists order :: IsEnumeration(order, FileSet(hits)) && response == Success(g.value + ReferencesText(order))
  }

  /** `answer(question)` */
  method Answer(question: string, search: Search, b: Backends) returns (response: Result<string, string>)
    ensures IsAnswer(question, search, b, response)
  {
    var results := search(question);
    if results.Failure? {
      return Failure(results.error);
    }
    var hits := results.value;
    var context := "";
    var references: seq<string> := [];
    for i := 0 to |hits|
      invariant context == ContextOf(hits[..i])
      invariant |references| == i
      invariant forall k :: 0 <= k < i ==> references[k] == hits[k].file
    {
      assert hits[..i + 1][..i] == hits[..i];
      context := context + hits[i].text + "\n";
      references := references + [hits[i].file];
    }
    assert hits[..|hits|] == hits;
    var generated := SafeGenerate(b, QaPrompt(context, question));
    if generated.outcome.Failure? {
      return generated.outcome;
    }
    var text := generated.outcome.value;
    if references != [] {
      var files := set r | r in references;
      assert files == FileSet(hits) by {
        forall f ensures f in files <==> f in FileSet(hits) {
          if f in files {
            var k :| 0 <= k < |references| && references[k] == f;
            assert hits[k] in hits;
          }
          if f in FileSet(hits) {
            var h :| h in hits && h.file == f;
            var k :| 0 <= k < |hits| && hits[k] == h;
            assert references[k] == f;
          }
        }
      }
      var order := Enumerate(files);
      text := text + ReferencesText(order);
    }
    response := Success(text);
  }

  /** With no results the reply is exactly the generation outcome. */
  lemma NoHitsNoReferences(question: string, search: Search, b: Backends, response: Result<string, string>)
    requires search(question) == Success([])
    ensures IsAnswer(question, search, b, response)
        <==> response == SafeGenerate(b, QaPrompt("", question)).outcome
  {
  }

  /** A reply followed by the references starts with the reply and names every listed file. */
  lemma ReferencesFollowReply(g: string, order: seq<string>)
    ensures StartsWith(g + ReferencesText(order), g)
    ensures forall f :: f in order ==> Contains(g + ReferencesText(order), f)
  {
    var text := g + ReferencesText(order);
    assert text[..|g|] == g;
    forall f | f in order ensures Contains(text, f) {
      var k :| 0 <= k < |order| && order[k] == f;
      JoinContainsItem(order, "\n", k);
      ContainsMiddle(g + RefHeader, Join(order, "\n"), []);
      assert g + RefHeader + Join(order, "\n") + [] == text;
      ContainsTransitive(text, Join(order, "\n"), f);
    }
  }

  /**
   * With results and a successful generation, the reply starts with the
   * generated text and names every distinct file of the results (each once,
   * by `IsEnumeration`).
   */
  lemma ReferencesListEveryFile(question: string, search: Search, b: Backends, response: Result<string, string>)
    requires IsAnswer(question, search, b, response)
    requires search(question).Success? && search(question).value != []
    requires SafeGenerate(b, QaPrompt(ContextOf(search(question).value), question)).outcome.Success?
    ensures response.Success?
    ensures StartsWith(response.value, SafeGenerate(b, QaPrompt(ContextOf(search(question).value), question)).outcome.value)
    ensures forall f :: f in FileSet(search(question).value) ==> Contains(response.value, f)
  {
    var hits := search(question).value;
    var g := SafeGenerate(b, QaPrompt(ContextOf(hits), question)).outcome.value;
    var order :| IsEnumeration(order, FileSet(hits)) && response == Success(g + ReferencesText(order));
    ReferencesFollowReply(g, order);
  }

  /** A generation failure is passed on unchanged, references or not. */
  lemma GenerationFailurePropagates(question: string, search: Search, b: Backends, response: Result<string, string>)
    requires IsAnswer(question, search, b, response)
    requires search(question).Success?
    requires SafeGenerate(b, QaPrompt(ContextOf(search(question).value), question)).outcome.Failure?
    ensures response == b.local(QaPrompt(ContextOf(search(question).value), question))
  {
  }

  // ---------------------------------------------------------------------------
  // stream_answer
  // ---------------------------------------------------------------------------

  /** The tokens `stream_answer` yields for a response: each word followed by a space. */
  function StreamTokens(response: string): seq<string> {
    var words := Words(response);
    seq(|words|, i requires 0 <= i < |words| => words[i] + " ")
  }

  /** Each word followed by a space, concatenated. */
  function Spaced(words: seq<string>): string {
    if words == [] then [] else words[0] + " " + Spaced(words[1..])
  }

  lemma {:induction false} ConcatOfSpaced(words: seq<string>)
    ensures Concat(seq(|words|, i requires 0 <= i < |words| => words[i] + " ")) == Spaced(words)
  {
    if words != [] {
      var tokens := seq(|words|, i requires 0 <= i < |words| => words[i] + " ");
      assert tokens[1..] == seq(|words[1..]|, i requires 0 <= i < |words[1..]| => words[1..][i] + " ");
      ConcatOfSpaced(words[1..]);
    }
  }

  /** Words joined by single spaces, plus a trailing space. */
  lemma {:induction false} SpacedIsJoinPlusSpace(words: seq<string>)
    requires words != []
    ensures Spaced(words) == Join(words, " ") + " "
  {
    if |words| == 1 {
      assert Spaced(words[1..]) == [];
    } else {
      SpacedIsJoinPlusSpace(words[1..]);
    }
  }

  /** Splitting the spaced words gives the words back. */
  lemma {:induction false} WordsOfSpaced(words: seq<string>)
    requires forall w :: w in words ==> w != [] && NoSpace(w)
    ensures Words(Spaced(words)) == words
  {
    if words != [] {
      var w := words[0];
      var rest := " " + Spaced(words[1..]);
      assert Spaced(words) == w + rest;
      WordLenOfSpaceFree(w, rest);
      assert (w + rest)[..|w|] == w;
      assert (w + rest)[|w|..] == rest;
      forall v | v in words[1..] ensures v != [] && NoSpace(v) { assert v in words; }
      WordsOfSpaced(words[1..]);
      assert rest[1..] == Spaced(words[1..]);
    }
  }

  /**
   * A whitespace-only response yields no token; otherwise the tokens
   * concatenate to the words joined by single spaces plus a trailing space,
   * and splitting that text gives back the response's words.
   */
  lemma StreamTokensShape(response: string)
    ensures StreamTokens(response) == [] <==> AllSpace(response)
    ensures !AllSpace(response) ==> Concat(StreamTokens(response)) == Join(Words(response), " ") + " "
    ensures Words(Concat(StreamTokens(response))) == Words(response)
    ensures forall t :: t in StreamTokens(response) ==> |t| >= 2 && t[|t| - 1] == ' '
  {
    var words := Words(response);
    WordsShape(response);
    ConcatOfSpaced(words);
    if words != [] {
      SpacedIsJoinPlusSpace(words);
    }
    WordsOfSpaced(words);
    forall t | t in StreamTokens(response) ensures |t| >= 2 && t[|t| - 1] == ' ' {
      var i :| 0 <= i < |words| && StreamTokens(response)[i] == t;
      assert words[i] in words;
    }
  }

  /**
   * `stream_answer(question)`: the tokens of an answer, or the exception the
   * answer raised.
   */
  method StreamAnswer(question: string, search: Search, b: Backends) returns (tokens: Result<seq<string>, string>)
    ensures exists response ::
              && IsAnswer(question, search, b, response)
              && tokens == (if response.Success? then Success(StreamTokens(response.value)) else Failure(response.error))
  {
    var response := Answer(question, search, b);
    if response.Failure? {
      tokens := Failure(response.error);
    } else {
      tokens := Success(StreamTokens(response.value));
    }
  }
}
