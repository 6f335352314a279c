/**
 * The synthetic patient's next line (`generate_patient_utterance`): the
 * recent conversation history is cut to a window, joined into one text,
 * placed in a fixed prompt template, sent to a chat-completion service
 * together with a fixed system prompt, and the reply is stripped of
 * surrounding whitespace. The service is a parameter of the model.
 */
module LlmPatient {
  import opened Wrappers
  import opened PyText

  /** The system prompt sent with every request. */
  const SYSTEM: string := "You are a realistic patient calling a medical office AI assistant..."

  /** How many of the most recent history lines go into the prompt. */
  const HISTORY_LIMIT: nat := 20

  const SCENARIO_LABEL: string := "Scenario: "
  const CONVERSATION_LABEL: string := "\n\nConversation so far:\n"
  const INSTRUCTION: string := "Return ONLY the next thing the patient should say (no quotes, no labels)."
  const FOOTER: string := "\n\n" + INSTRUCTION

  /** `history_lines[-20:]`: the most recent lines, at most HISTORY_LIMIT of
      them, in their original order. With HISTORY_LIMIT lines or fewer that is
      the whole list. */
  function HistoryWindow(historyLines: seq<string>): (w: seq<string>)
    ensures |w| == if |historyLines| <= HISTORY_LIMIT then |historyLines| else HISTORY_LIMIT
    ensures w == historyLines[|historyLines| - |w|..]
  {
    SliceFrom(historyLines, -(HISTORY_LIMIT as int))
  }

  /** The window joined with newlines. No history gives the empty text;
      otherwise the text ends with the most recent line. */
  function History(historyLines: seq<string>): (h: string)
    ensures historyLines == [] ==> h == ""
    ensures |historyLines| >= 1 ==>
      |h| >= |historyLines[|historyLines| - 1]|
      && h[|h| - |historyLines[|historyLines| - 1]|..] == historyLines[|historyLines| - 1]
  {
    var w := HistoryWindow(historyLines);
    assert |historyLines| >= 1 ==> w != [] && w[|w| - 1] == historyLines[|historyLines| - 1];
    Join("\n", w)
  }

  /** The window can be read back from the history text by splitting it at
      newlines, as long as the window is not empty and no line in it holds a
      newline of its own. Lines older than the window do not matter. */
  lemma HistoryRoundTrip(historyLines: seq<string>)
    requires |historyLines| >= 1
    requires forall i :: 0 <= i < |HistoryWindow(historyLines)| ==> '\n' !in HistoryWindow(historyLines)[i]
    ensures Split(History(historyLines), '\n') == HistoryWindow(historyLines)
  {
    SplitJoin(HistoryWindow(historyLines), '\n');
  }

  /** No history and a history of one empty line give the same history text,
      and so the same prompt: the two cannot be told apart downstream. */
  lemma EmptyHistoryLikeOneEmptyLine(scenario: string)
    ensures History([]) == History([""]) == ""
    ensures UserPrompt(scenario, History([])) == UserPrompt(scenario, History([""]))
  {
  }

  /** The user message: the scenario after its label, then the conversation
      label and the history, then the fixed instruction. Each piece sits at a
      known position, so the scenario and the history can be cut back out. */
  function UserPrompt(scenario: string, history: string): (p: string)
    ensures |p| == |SCENARIO_LABEL| + |scenario| + |CONVERSATION_LABEL| + |history| + |FOOTER|
    ensures p[..|SCENARIO_LABEL|] == SCENARIO_LABEL
    ensures p[|SCENARIO_LABEL|..|SCENARIO_LABEL| + |scenario|] == scenario
    ensures p[|SCENARIO_LABEL| + |scenario|..|p| - |FOOTER|] == CONVERSATION_LABEL + history
    ensures p[|p| - |FOOTER|..] == FOOTER
  {
    SCENARIO_LABEL + scenario + CONVERSATION_LABEL + history + FOOTER
  }

  /** For a fixed scenario, different histories give different prompts:
      nothing of the history is lost in the template. */
  lemma PromptDeterminesHistory(scenario: string, h1: string, h2: string)
    requires UserPrompt(scenario, h1) == UserPrompt(scenario, h2)
    ensures h1 == h2
  {
    var p := UserPrompt(scenario, h1);
    var start := |SCENARIO_LABEL| + |scenario| + |CONVERSATION_LABEL|;
    assert h1 == p[start..|p| - |FOOTER|];
  }

  /** Why no utterance could be produced. Either the reply had no first
      choice, so `resp.choices[0]` raises `IndexError`, or the first choice's
      content was `None`, so `.strip()` raises `AttributeError`. */
  datatype GenerationError = NoContent

  /** `generate_patient_utterance`. `chat` stands for the chat-completion
      service: given the system prompt and the user message it returns the
      first choice's content. It returns `None` when there is no first choice
      or that choice has no content. The utterance is that content
      with surrounding whitespace removed. */
  function GeneratePatientUtterance(
    historyLines: seq<string>,
    scenario: string,
    chat: (string, string) -> Option<string>
  ): (r: Result<string, GenerationError>)
    ensures r.Failure? <==> chat(SYSTEM, UserPrompt(scenario, History(historyLines))).None?
    ensures r.Success? ==> r.value == Strip(chat(SYSTEM, UserPrompt(scenario, History(historyLines))).value)
  {
    var user := UserPrompt(scenario, History(historyLines));
    match chat(SYSTEM, user)
    case None => Failure(NoContent)
    case Some(content) => Success(Strip(content))
  }

  /** A produced utterance has no whitespace at either end, stripping it again
      changes nothing, and it is the reply with only whitespace cut from its
      two ends. */
  lemma UtteranceIsTrimmed(
    historyLines: seq<string>,
    scenario: string,
    chat: (string, string) -> Option<string>
  )
    requires GeneratePatientUtterance(historyLines, scenario, chat).Success?
    ensures var u := GeneratePatientUtterance(historyLines, scenario, chat).value;
      var reply := chat(SYSTEM, UserPrompt(scenario, History(historyLines))).value;
      && Trimmed(u)
      && Strip(u) == u
      && exists i :: StrippedAt(reply, u, i)
  {
  }
}
