/**
  The pure part of the server's `/answer` handler: the tone rule, the
  empty-question guard and the chat request it assembles. Sending the
  request to the chat service is foreign.
*/
module Answer {
  import opened Text

  const ShortRule := "Keep it short (20 to 30 seconds)."
  const DetailedRule := "Make it detailed (60 to 90 seconds) with strong structure."
  const ConciseRule := "Keep it concise (30 to 60 seconds)."

  /** `tone_rule`: a missing tone counts as `"medium"`; the tone is compared
      after stripping and lower-casing. */
  function ToneRule(tone: string): (rule: string)
    ensures rule == ShortRule || rule == DetailedRule || rule == ConciseRule
    ensures rule == ShortRule <==> Lower(Strip(tone)) == "short"
    ensures rule == DetailedRule <==> Lower(Strip(tone)) == "detailed"
  {
    StripStripped("medium");
    var t := Lower(Strip(if tone == "" then "medium" else tone));
    if t == "short" then ShortRule
    else if t == "detailed" then DetailedRule
    else ConciseRule
  }

  /** The rule depends on the tone only up to case and surrounding
      whitespace. */
  lemma ToneRuleInsensitive(a: string, b: string)
    requires Lower(Strip(a)) == Lower(Strip(b))
    ensures ToneRule(a) == ToneRule(b)
  {
  }

  const SystemPreamble := "You are an interview copilot. Give a confident, natural spoken answer. "
                        + "Structure: direct answer, brief example, close. "
  const NoQuestionAnswer := "No question received."
  const DefaultChatModel := "llama3:latest"
  const QuestionHeader := "Question:\n"
  const ResumeHeader := "\nResume context:\n"

  /** The non-streaming chat request: a model and the two messages. */
  datatype ChatRequest = ChatRequest(model: string, system: string, user: string)

  /** What `/answer` does before any network call: answer at once, or ask
      the chat service. */
  datatype AnswerStep = Reply(answer: string) | Ask(request: ChatRequest)

  /** The user message: the question, then the resume section when there
      is a resume. */
  function UserPrompt(question: string, resume: string): string
  {
    var user := QuestionHeader + question + "\n";
    if resume != "" then user + ResumeHeader + resume + "\n" else user
  }

  function PrepareAnswer(question: string, resume: string, model: string, tone: string): (step: AnswerStep)
  {
    var q := Strip(question);
    if q == "" then Reply(NoQuestionAnswer)
    else
      var r := Strip(resume);
      var system := SystemPreamble + ToneRule(tone);
      Ask(ChatRequest(if model == "" then DefaultChatModel else model, system, UserPrompt(q, r)))
  }

  /** A blank question is answered with the fixed reply and builds no
      request. Otherwise the system message ends with the tone rule, the
      user message opens with the stripped question on its own line, and
      it carries a resume section, holding the stripped resume, exactly when
      the stripped resume is non-empty. */
  lemma PrepareAnswerShape(question: string, resume: string, model: string, tone: string)
    ensures var step := PrepareAnswer(question, resume, model, tone);
      && (step.Reply? <==> Strip(question) == "")
      && (step.Reply? ==> step.answer == NoQuestionAnswer)
      && (step.Ask? ==>
            var head := QuestionHeader + Strip(question) + "\n";
            var user := step.request.user;
            && step.request.system == SystemPreamble + ToneRule(tone)
            && step.request.model != ""
            && (model != "" ==> step.request.model == model)
            && (model == "" ==> step.request.model == DefaultChatModel)
            && head <= user
            && (|user| == |head| <==> Strip(resume) == "")
            && (Strip(resume) != "" ==> user[|head|..] == ResumeHeader + Strip(resume) + "\n"))
  {
    var q, r := Strip(question), Strip(resume);
    if q != "" {
      var head := QuestionHeader + q + "\n";
      var user := UserPrompt(q, r);
      if r != "" {
        assert user == head + (ResumeHeader + r + "\n");
      }
    }
  }
}
