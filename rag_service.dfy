/** Prompt assembly of `RAGService`: a fixed system prompt, the human prompt format, and the two
    messages `ask_model` sends. */
module RagService {
  import opened Wrappers
  import opened Strings
  import opened Exceptions

  datatype Role = SystemRole | HumanRole

  /** A chat message (`SystemMessage` / `HumanMessage`). */
  datatype Message = Message(role: Role, content: string)

  /** The chat model: a list of messages to the reply text, or the exception it raised. */
  type ChatModel = seq<Message> -> Result<string, Exc>

  /** The system prompt: who the assistant is, its instructions, and the closing reminder. */
  const SystemPrompt: string := SystemRoleLine + SystemInstructions + SystemReminder

  const SystemRoleLine: string :=
    "You are a helpful AI career assistant that provides personalized answers " +
    "based on the user's resume.\n\n"

  const SystemInstructions: string :=
    "Instructions:\n" +
    "- ONLY answer based on the content found in the resume context.\n" +
    "- If the information is not available in the resume, clearly respond with: " +
    "\"Information not found in the resume.\"\n" +
    "- Do not make assumptions or hallucinate facts.\n" +
    "- Be professional, supportive, and conversational in tone.\n" +
    "- Provide specific details from the resume whenever possible (e.g., job titles, companies, dates, skills, certifications, projects).\n" +
    "- When asked about experience, reference relevant work history, education, or projects from the resume.\n" +
    "- If something is missing or could be improved, provide constructive suggestions for enhancing the resume.\n" +
    "- Structure responses clearly. Use bullet points or headings if needed to improve readability.\n"

  const SystemReminder: string :=
    "\nAlways ensure that your answers are grounded in the resume context provided."

  const ContextHeader: string := "Here is the resume context:\n\n"
  const QuestionHeader: string := "\n\nUser's question: "

  /** `build_system_prompt`: takes no input, so every call yields the same text. */
  function BuildSystemPrompt(): (r: string)
    ensures |r| == |SystemRoleLine| + |SystemInstructions| + |SystemReminder|
    ensures StartsWith(r, SystemRoleLine)
    ensures EndsWith(r, SystemReminder)
    ensures r[|SystemRoleLine|..|r| - |SystemReminder|] == SystemInstructions
  {
    var p := SystemRoleLine + SystemInstructions + SystemReminder;
    assert p[..|SystemRoleLine|] == SystemRoleLine;
    assert p[|p| - |SystemReminder|..] == SystemReminder;
    assert p[|SystemRoleLine|..|p| - |SystemReminder|] == SystemInstructions;
    p
  }

  /** `build_human_prompt(context, question)`. */
  function BuildHumanPrompt(context: string, question: string): (r: string)
    ensures StartsWith(r, ContextHeader + context)
    ensures EndsWith(r, QuestionHeader + question)
  {
    ContextHeader + context + QuestionHeader + question
  }

  /** The human prompt is the header, then the context, then the question marker, then the question:
      the context comes first and both can be read back from their positions. */
  lemma HumanPromptLayout(context: string, question: string)
    ensures var p := BuildHumanPrompt(context, question);
      var c0 := |ContextHeader|;
      var q0 := c0 + |context| + |QuestionHeader|;
      && |p| == q0 + |question|
      && p[..c0] == ContextHeader
      && p[c0..c0 + |context|] == context
      && p[c0 + |context|..q0] == QuestionHeader
      && p[q0..] == question
  {
    var p := BuildHumanPrompt(context, question);
    var c0 := |ContextHeader|;
    assert p == ContextHeader + context + QuestionHeader + question;
    assert p[c0..c0 + |context|] == context;
  }

  /** Two human prompts with contexts of equal length are equal only for the same context and question. */
  lemma HumanPromptInjective(c1: string, q1: string, c2: string, q2: string)
    requires |c1| == |c2|
    requires BuildHumanPrompt(c1, q1) == BuildHumanPrompt(c2, q2)
    ensures c1 == c2 && q1 == q2
  {
    HumanPromptLayout(c1, q1);
    HumanPromptLayout(c2, q2);
  }

  /** The message list built in `ask_model`. */
  function AskModelMessages(context: string, question: string): (r: seq<Message>)
    ensures |r| == 2
    ensures r[0].role == SystemRole && r[0].content == SystemPrompt
    ensures r[1].role == HumanRole && r[1].content == BuildHumanPrompt(context, question)
  {
    [Message(SystemRole, BuildSystemPrompt()), Message(HumanRole, BuildHumanPrompt(context, question))]
  }

  /** `ask_model`: one call of the chat model with the assembled messages. */
  function AskModel(context: string, question: string, model: ChatModel): (r: Result<string, Exc>)
    ensures r == model(AskModelMessages(context, question))
  {
    model(AskModelMessages(context, question))
  }

  /** `ask_model` sends exactly two messages: the system prompt first, then the human prompt of exactly
      the given context and question; its reply depends on nothing else. */
  lemma AskModelSendsTwoMessages(context: string, question: string, m1: ChatModel, m2: ChatModel)
    requires m1(AskModelMessages(context, question)) == m2(AskModelMessages(context, question))
    ensures var ms := AskModelMessages(context, question);
      |ms| == 2 && ms[0].role == SystemRole && ms[0].content == SystemPrompt &&
      ms[1].role == HumanRole && ms[1].content == BuildHumanPrompt(context, question)
    ensures AskModel(context, question, m1) == AskModel(context, question, m2)
  {
  }
}
