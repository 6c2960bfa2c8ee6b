/**
 * webapp/utils/genai_llm.py: `generate_genai_response(context, question)` fills a fixed prompt
 * template and maps the Gemini model's response to the answer shown to the user, falling back
 * to fixed apologies.  The model itself is a parameter: `respond(prompt)` stands for what
 * `generate_content(prompt)` yields.
 */
module GenAi {
  import opened Strings

  /** The template up to the context. */
  const Preamble: string := "You are a helpful assistant. Only answer based on the context below.\nIf the answer cannot be found in the context, politely state that you don't have enough information.\n\nContext:\n"
  const QuestionLabel: string := "\n\nQuestion: "
  const AnswerLabel: string := "\nAnswer:"

  /** The f-string prompt. */
  function Prompt(context: string, question: string): string {
    Preamble + context + QuestionLabel + question + AnswerLabel
  }

  /** The prompt opens with the fixed preamble, holds the context right after it and ends with
      the question and the answer label, so the context always precedes the question. */
  lemma PromptLayout(context: string, question: string)
    ensures var p, k := Prompt(context, question), |Preamble| + |context|;
      && StartsWith(p, Preamble)
      && p[|Preamble|..k] == context
      && p[k..k + |QuestionLabel|] == QuestionLabel
      && p[k + |QuestionLabel|..|p| - |AnswerLabel|] == question
      && EndsWith(p, AnswerLabel)
  {
    Layout5(Preamble, context, QuestionLabel, question, AnswerLabel);
  }

  lemma Layout5(a: string, b: string, c: string, d: string, e: string)
    ensures var p, i, j, k := a + b + c + d + e, |a|, |a| + |b|, |a| + |b| + |c|;
      && |p| == k + |d| + |e|
      && p[..i] == a && p[i..j] == b && p[j..k] == c
      && p[k..|p| - |e|] == d && p[|p| - |e|..] == e
  {
  }

  /** For a given question the prompt determines the context, and for contexts of one length it
      determines both. */
  lemma PromptInjective(c1: string, q1: string, c2: string, q2: string)
    requires Prompt(c1, q1) == Prompt(c2, q2)
    requires q1 == q2 || |c1| == |c2|
    ensures c1 == c2 && q1 == q2
  {
    PromptLayout(c1, q1);
    PromptLayout(c2, q2);
  }

  /** What `generate_content` yields: it raises (as does any other failure inside the `try`),
      or it returns a response whose `text` is given (`""` when empty) together with the
      prompt feedback's `block_reason`, 0 when unset or unspecified. */
  datatype Generation = GenerationRaises | Generated(text: string, blockReason: nat)

  /** The three fallback answers, each an apology `"Sorry, I " + text + "."`. */
  const Sorry: string := "Sorry, I "
  const SafetyText: string := "cannot provide an answer based on this request due to safety concerns"
  const EmptyText: string := "received an empty or uninterpretable response from the GenAI model"
  const InternalErrorText: string := "encountered an internal error while trying to get a response"

  function Apology(text: string): string {
    Sorry + text + "."
  }

  const SafetyAnswer: string := Apology(SafetyText)
  const EmptyAnswer: string := Apology(EmptyText)
  const InternalErrorAnswer: string := Apology(InternalErrorText)

  /** Helper for `FallbacksAreTrimmed`: an apology starts with `S`, ends with `.` and shows its
      text right after the opening. */
  lemma ApologyShape(text: string)
    requires text != []
    ensures var a := Apology(text);
      a[0] == 'S' && a[|a| - 1] == '.' && |a| == |Sorry| + |text| + 1
  {
  }

  /** The mapping from the model's response to the answer. */
  function Answer(g: Generation): string {
    match g
    case GenerationRaises => InternalErrorAnswer
    case Generated(text, reason) =>
      if text != "" then Strip(text)
      else if reason != 0 then SafetyAnswer
      else EmptyAnswer
  }

  /** `generate_genai_response(context, question)`; it never raises. */
  function GenerateResponse(context: string, question: string, respond: string -> Generation): string {
    Answer(respond(Prompt(context, question)))
  }

  /** What a Python call of `generate_genai_response(context, question, **keywords)` yields: the
      function declares its two parameters and nothing else, so with both given by position any
      keyword argument at all raises `TypeError` before the body runs. */
  datatype CallResult = Returned(answer: string) | TypeErrorRaised

  function Call(context: string, question: string, keywords: set<string>, respond: string -> Generation): CallResult {
    if keywords == {} then Returned(GenerateResponse(context, question, respond)) else TypeErrorRaised
  }

  /** A non-empty response text is returned stripped; otherwise the answer is the fallback the
      case calls for, and the three fallbacks are distinct. */
  lemma AnswerCases(g: Generation)
    ensures g.Generated? && g.text != "" ==> Answer(g) == Strip(g.text)
    ensures g.Generated? && g.text == "" && g.blockReason != 0 ==> Answer(g) == SafetyAnswer
    ensures g.Generated? && g.text == "" && g.blockReason == 0 ==> Answer(g) == EmptyAnswer
    ensures g.GenerationRaises? ==> Answer(g) == InternalErrorAnswer
    ensures SafetyAnswer != EmptyAnswer && EmptyAnswer != InternalErrorAnswer
      && SafetyAnswer != InternalErrorAnswer
  {
    FallbacksAreTrimmed();
  }

  /** The answer never starts or ends with whitespace, and it is empty only when the model
      replied with whitespace alone. */
  lemma AnswerIsTrimmed(g: Generation)
    ensures var a := Answer(g); a == [] || (!IsSpace(a[0]) && !IsSpace(a[|a| - 1]))
    ensures Answer(g) == [] <==> g.Generated? && g.text != "" && AllSpace(g.text)
  {
    if g.Generated? && g.text != "" {
      StripIsTrimmedSlice(g.text);
      StripEmptyIffAllSpace(g.text);
    } else {
      FallbacksAreTrimmed();
    }
  }

  /** Helper for `AnswerCases` and `AnswerIsTrimmed`: the three fallbacks are trimmed and tell
      apart by length. */
  lemma FallbacksAreTrimmed()
    ensures SafetyAnswer[0] == 'S' && SafetyAnswer[|SafetyAnswer| - 1] == '.'
    ensures EmptyAnswer[0] == 'S' && EmptyAnswer[|EmptyAnswer| - 1] == '.'
    ensures InternalErrorAnswer[0] == 'S' && InternalErrorAnswer[|InternalErrorAnswer| - 1] == '.'
    ensures |SafetyAnswer| != |EmptyAnswer| && |EmptyAnswer| != |InternalErrorAnswer|
      && |SafetyAnswer| != |InternalErrorAnswer|
  {
    ApologyShape(SafetyText);
    ApologyShape(EmptyText);
    ApologyShape(InternalErrorText);
  }
}
