/**
  The per-session conversation registry and the two pure helpers of the chat
  routes: the preset-question table `EVENT_INFO` and the history formatting
  done before asking for a summary.
*/
module Sessions {
  import opened Wrappers
  import opened Text

  type SessionId = string

  /** An opaque handle on a chat conversation, as `model.start_chat(history=[])` returns it. */
  type Conversation = nat

  /** The 400 reply "Nenhum ID de sessão fornecido." of the three routes. */
  datatype RouteError = MissingSessionId

  /** `if not session_id`: an absent, null or empty `sessionId` is refused. */
  predicate HasSessionId(sessionId: Option<string>)
  {
    sessionId.Some? && sessionId.value != ""
  }

  /** `active_conversations`: the live conversation of each browser session. */
  class Registry {
    var active: map<SessionId, Conversation>

    constructor ()
      ensures active == map[]
    {
      active := map[];
    }

    /**
      The get-or-create of `/chat` (app.py:583-586 and 608-611): an unseen
      session gets `started`, the conversation the chat model has just started;
      a known one keeps its conversation.
    */
    method Chat(sessionId: Option<string>, started: Conversation) returns (r: Result<Conversation, RouteError>)
      modifies this
      ensures !HasSessionId(sessionId) ==> r == Failure(MissingSessionId) && active == old(active)
      ensures HasSessionId(sessionId) ==> sessionId.value in active && r == Success(active[sessionId.value])
      ensures HasSessionId(sessionId) && sessionId.value in old(active) ==>
                active == old(active) && r == Success(old(active)[sessionId.value])
      ensures HasSessionId(sessionId) && sessionId.value !in old(active) ==>
                active == old(active)[sessionId.value := started] && r == Success(started)
    {
      if !HasSessionId(sessionId) {
        return Failure(MissingSessionId);
      }
      var id := sessionId.value;
      if id !in active {
        active := active[id := started];
      }
      r := Success(active[id]);
    }

    /**
      The lookup of `/summarize` (app.py:677-679): reads the registry and never
      inserts into it.
    */
    method Summarize(sessionId: Option<string>) returns (r: Result<Option<Conversation>, RouteError>)
      ensures !HasSessionId(sessionId) ==> r == Failure(MissingSessionId)
      ensures HasSessionId(sessionId) ==> r.Success?
      ensures HasSessionId(sessionId) ==> (r.value.Some? <==> sessionId.value in active)
      ensures HasSessionId(sessionId) && r.value.Some? ==> r.value.value == active[sessionId.value]
    {
      if !HasSessionId(sessionId) {
        return Failure(MissingSessionId);
      }
      var id := sessionId.value;
      var convo: Option<Conversation> := None;
      if id in active {
        convo := Some(active[id]);
      }
      r := Success(convo);
    }

    /**
      `/restart` (app.py:709-711): removes exactly that session; an unknown
      session is a no-op and every other session keeps its conversation.
    */
    method Restart(sessionId: Option<string>) returns (r: Result<(), RouteError>)
      modifies this
      ensures !HasSessionId(sessionId) ==> r == Failure(MissingSessionId) && active == old(active)
      ensures HasSessionId(sessionId) ==> r == Success(()) && active == old(active) - {sessionId.value}
      ensures HasSessionId(sessionId) && sessionId.value !in old(active) ==> active == old(active)
      ensures forall id :: id in old(active) && (!HasSessionId(sessionId) || id != sessionId.value) ==>
                id in active && active[id] == old(active)[id]
    {
      if !HasSessionId(sessionId) {
        return Failure(MissingSessionId);
      }
      var id := sessionId.value;
      if id in active {
        active := active - {id};
      }
      r := Success(());
    }
  }

  // ---------------------------------------------------------------------
  // Preset questions (app.py:367-392, 614-625)

  /** The six entries of `EVENT_INFO`. */
  datatype Preset = GniProjects | MarketingProjects | AboutLia | PitchAndPrinter | Consulting | Podcast

  /** The `"text"` of each entry. */
  function AnswerText(p: Preset): string
  {
    match p
    case GniProjects => "O curso de Gestão de Negócios e Inovação (GNI) terá várias apresentações, como o 'Número Musical' do 1º semestre, 'pitchs e demonstração de impressora 3D' do 4º semestre, e 'atendimento de consultoria' do 6º semestre. Quer saber o local de algum específico?"
    case MarketingProjects => "Os projetos de Marketing (MKT) estão espalhados pelo evento! Temos apresentações nas salas 209, 206, 207 e um Podcast sendo gravado no Aquário do 2º andar. Qual semestre você procura?"
    case AboutLia => "Esse projeto sou eu mesma! Fui desenvolvida pela turma de Ciência de Dados para Negócios para ser a assistente virtual oficial do Metaday e ajudar todos vocês com informações sobre o evento!"
    case PitchAndPrinter => "A apresentação de pitchs com demonstração de impressora 3D, do 4º semestre de GNI, acontecerá na sala 204 e na sala maker. Parece bem interessante!"
    case Consulting => "Sim! Os alunos do 6º semestre de GNI, da turma da manhã, estarão oferecendo um atendimento de consultoria na sala multiuso do térreo. É uma ótima oportunidade!"
    case Podcast => "O podcast está sendo gravado pelos alunos do 4º semestre de Marketing no Aquário do 2º andar. Vale a pena conferir!"
  }

  /** One entry: the question, the canned answer and the recording's path. */
  datatype PresetInfo = PresetInfo(question: string, answer: Preset, audioPath: string)
  {
    function text(): string { AnswerText(answer) }
  }

  /** `EVENT_INFO`, in the dictionary's insertion order. */
  const EventInfo: seq<PresetInfo> := [
      PresetInfo("Quais os projetos de GNI?", GniProjects, "respostas_pre_gravadas/projetos_gni.mp3"),
      PresetInfo("Onde encontro os projetos de Marketing?", MarketingProjects, "respostas_pre_gravadas/projetos_mkt.mp3"),
      PresetInfo("O que é o projeto da LIA?", AboutLia, "respostas_pre_gravadas/o_que_e_lia.mp3"),
      PresetInfo("Onde será a apresentação de Pitch e Impressora 3D?", PitchAndPrinter, "respostas_pre_gravadas/pitch_impressora.mp3"),
      PresetInfo("Tem algum projeto de consultoria?", Consulting, "respostas_pre_gravadas/projeto_consultoria.mp3"),
      PresetInfo("Onde vai ser o podcast?", Podcast, "respostas_pre_gravadas/onde_e_podcast.mp3")
    ]

  /** The keys of a preset table, in order: `list(EVENT_INFO.keys())` (app.py:646). */
  function Questions(table: seq<PresetInfo>): (qs: seq<string>)
    ensures |qs| == |table|
    ensures forall k :: 0 <= k < |table| ==> qs[k] == table[k].question
  {
    if table == [] then [] else [table[0].question] + Questions(table[1..])
  }

  /** `table.get(question)`. */
  function Lookup(table: seq<PresetInfo>, question: string): Option<PresetInfo>
  {
    if table == [] then None
    else if table[0].question == question then Some(table[0])
    else Lookup(table[1..], question)
  }

  /** A lookup finds an entry exactly for the listed questions, and the entry it finds is that question's. */
  lemma {:induction false} LookupFinds(table: seq<PresetInfo>, question: string)
    ensures Lookup(table, question).Some? <==> question in Questions(table)
    ensures Lookup(table, question).Some? ==>
              Lookup(table, question).value in table && Lookup(table, question).value.question == question
  {
    if table != [] {
      LookupFinds(table[1..], question);
      assert Questions(table) == [table[0].question] + Questions(table[1..]);
    }
  }

  predicate DistinctQuestions(table: seq<PresetInfo>)
  {
    forall i, j :: 0 <= i < j < |table| ==> table[i].question != table[j].question
  }

  /** In a table with distinct questions, looking up entry k's question gives entry k. */
  lemma {:induction false} LookupEntry(table: seq<PresetInfo>, k: nat)
    requires DistinctQuestions(table) && k < |table|
    ensures Lookup(table, table[k].question) == Some(table[k])
  {
    if k > 0 {
      assert table[0].question != table[k].question;
      assert table[1..][k - 1] == table[k];
      LookupEntry(table[1..], k - 1);
    }
  }

  lemma EventInfoDistinct()
    ensures DistinctQuestions(EventInfo)
  {
  }

  /** Where the audio of a reply comes from. */
  datatype AudioPlan =
    | NoAudio               // TTS disabled
    | Recorded(path: string) // the pre-recorded file, read and base64-encoded
    | Synthesize(text: string) // the file is missing: speech synthesis of the text

  datatype PresetReply =
    | Answered(text: string, audio: AudioPlan) // a known preset: canned text
    | AskModel(question: string)               // any other question goes to the conversation

  /** The audio planned for a preset entry's answer. */
  function AudioFor(info: PresetInfo, ttsEnabled: bool, recordingExists: bool): AudioPlan
  {
    if !ttsEnabled then NoAudio
    else if recordingExists then Recorded(info.audioPath)
    else Synthesize(info.text())
  }

  /**
    The `preset_question` branch of `/chat` (app.py:614-625) over a preset
    table; `recordingExists` says that opening the recorded file raises no
    `FileNotFoundError`. Other open errors end in the 500 reply of
    app.py:649-652, which is not modelled.
  */
  function AnswerFrom(table: seq<PresetInfo>, question: string, ttsEnabled: bool, recordingExists: bool): PresetReply
  {
    match Lookup(table, question)
    case None => AskModel(question)
    case Some(info) => Answered(info.text(), AudioFor(info, ttsEnabled, recordingExists))
  }

  /** The same branch over `EVENT_INFO` itself. */
  function PresetAnswer(question: string, ttsEnabled: bool, recordingExists: bool): PresetReply
  {
    AnswerFrom(EventInfo, question, ttsEnabled, recordingExists)
  }

  /**
    Exactly the listed questions are answered from the table, with the text
    of an entry for that question; audio is planned only when TTS is on, from
    that entry's recording when it exists and by synthesis of the same text
    otherwise. Any other question goes to the conversation unchanged.
  */
  lemma AnswerFromSpec(table: seq<PresetInfo>, question: string, ttsEnabled: bool, recordingExists: bool)
    ensures var reply := AnswerFrom(table, question, ttsEnabled, recordingExists);
      && (reply.Answered? <==> question in Questions(table))
      && (reply.AskModel? ==> reply.question == question)
      && (reply.Answered? ==> exists k :: 0 <= k < |table| && table[k].question == question &&
                                reply.text == table[k].text() && reply.audio == AudioFor(table[k], ttsEnabled, recordingExists))
  {
    LookupFinds(table, question);
  }

  /** Every preset button of `EVENT_INFO` gets the answer and audio of its own entry. */
  lemma PresetButtonsAnswered(k: nat, ttsEnabled: bool, recordingExists: bool)
    requires k < |EventInfo|
    ensures PresetAnswer(EventInfo[k].question, ttsEnabled, recordingExists)
            == Answered(EventInfo[k].text(), AudioFor(EventInfo[k], ttsEnabled, recordingExists))
  {
    EventInfoDistinct();
    LookupEntry(EventInfo, k);
  }

  // ---------------------------------------------------------------------
  // Summary of a conversation (app.py:682-690)

  /** A message part; `text` is None when the part has no `text` attribute. */
  datatype Part = Part(text: Option<string>)

  datatype Message = Message(role: string, parts: seq<Part>)

  /** `m.parts and hasattr(m.parts[0], 'text')`. */
  predicate Summarizable(m: Message)
  {
    |m.parts| > 0 && m.parts[0].text.Some?
  }

  /** One line of the summary input. */
  function SummaryLine(m: Message): string
    requires Summarizable(m)
  {
    (if m.role == "user" then "Usuário" else "Assistente") + ": " + m.parts[0].text.value
  }

  /** The lines for the summarizable messages of a history, in order. */
  function SummaryLines(history: seq<Message>): (lines: seq<string>)
    ensures |lines| <= |history|
  {
    if history == [] then []
    else if Summarizable(history[0]) then [SummaryLine(history[0])] + SummaryLines(history[1..])
    else SummaryLines(history[1..])
  }

  /** `"\n".join(...)` over the summarizable messages (app.py:686-689). */
  function FormatHistory(history: seq<Message>): string
  {
    Join(SummaryLines(history), '\n')
  }

  /** The instruction line that opens every summary prompt (written in three pieces). */
  const SummaryInstruction: string := "Resuma a conversa em " + "português, de forma " + "breve e objetiva:"
  const SummaryPrompt: string := SummaryInstruction + "\n\n"

  datatype SummaryRequest = NoHistory | Prompt(text: string)

  /**
    What `/summarize` asks the model (app.py:682-690): nothing when the
    session has no conversation or an empty history.
  */
  function SummaryFor(history: Option<seq<Message>>): SummaryRequest
  {
    match history
    case None => NoHistory
    case Some(h) => if h == [] then NoHistory else Prompt(SummaryPrompt + FormatHistory(h))
  }

  /** Texts free of line breaks keep every line in its own piece of the formatted summary. */
  predicate OneLineTexts(history: seq<Message>)
  {
    forall m :: m in history && Summarizable(m) ==> '\n' !in m.parts[0].text.value
  }

  lemma {:induction false} SummaryLinesOneLine(history: seq<Message>)
    requires OneLineTexts(history)
    ensures forall l :: l in SummaryLines(history) ==> '\n' !in l
  {
    if history != [] {
      assert forall m :: m in history[1..] ==> m in history;
      SummaryLinesOneLine(history[1..]);
      if Summarizable(history[0]) {
        var m := history[0];
        var tag := if m.role == "user" then "Usuário" else "Assistente";
        assert '\n' !in tag;
        assert SummaryLine(m) == tag + ": " + m.parts[0].text.value;
      }
    }
  }

  /**
    The formatted history splits back into one line per summarizable message,
    in order, each labelled "Usuário" for the user and "Assistente" otherwise.
  */
  lemma FormatHistoryLines(history: seq<Message>)
    requires OneLineTexts(history) && SummaryLines(history) != []
    ensures SplitOn(FormatHistory(history), '\n') == SummaryLines(history)
  {
    SummaryLinesOneLine(history);
    JoinSplitOn(SummaryLines(history), '\n');
  }

  lemma InstructionOneLine()
    ensures '\n' !in SummaryInstruction
  {
    assert '\n' !in "Resuma a conversa em ";
    assert '\n' !in "português, de forma ";
    assert '\n' !in "breve e objetiva:";
  }

  /** The prompt prefix splits into the instruction and a blank line before the text that follows it. */
  lemma PromptSplit(formatted: string)
    ensures SplitOn(SummaryPrompt + formatted, '\n') == [SummaryInstruction, ""] + SplitOn(formatted, '\n')
  {
    InstructionOneLine();
    assert SummaryPrompt + formatted == SummaryInstruction + ['\n'] + ("" + ['\n'] + formatted);
    SplitOnCons(SummaryInstruction, "" + ['\n'] + formatted, '\n');
    SplitOnCons("", formatted, '\n');
  }

  /**
    Read line by line, the prompt of a non-empty history is the instruction,
    a blank line, then one labelled line per summarizable message in order
    (an empty last line when no message has text).
  */
  lemma SummaryPromptLines(history: seq<Message>)
    requires history != [] && OneLineTexts(history)
    ensures SummaryFor(Some(history)).Prompt?
    ensures SplitOn(SummaryFor(Some(history)).text, '\n')
            == [SummaryInstruction, ""] + (if SummaryLines(history) == [] then [""] else SummaryLines(history))
  {
    if SummaryLines(history) != [] {
      FormatHistoryLines(history);
    }
    PromptSplit(FormatHistory(history));
  }
}
