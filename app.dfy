/** app.py: the conversation driver. `create_openai_client` checks three
    settings in order, `transcribe_speech_to_text` turns every failure of
    recording or transcribing into an empty transcript, `interact_with_openai` validates the prompts before
    the client is asked and wraps every failure in an `AssertionError`,
    `synthesize_and_play_speech` guards against a missing script and an
    empty audio stream, and `main` only talks to the model when there is a
    transcript. The services (speech recognition, the chat completion, the
    speech service and playback) are parameters. */
module App {
  import opened Wrappers
  import opened BytesIo
  import Tts

  // ---------------------------------------------------------------------------
  // create_openai_client

  /** The settings `create_openai_client` reads (None when unset). */
  datatype OpenAIEnvironment = OpenAIEnvironment(apiKey: Option<string>, apiVersion: Option<string>, endpoint: Option<string>)

  /** The client: the three settings it is built from. */
  datatype OpenAIClient = OpenAIClient(apiKey: string, apiVersion: string, endpoint: string)

  function CreateOpenAIClient(env: OpenAIEnvironment): (r: Result<OpenAIClient, Exception>)
    ensures r.Success? <==> Tts.Truthy(env.apiKey) && Tts.Truthy(env.apiVersion) && Tts.Truthy(env.endpoint)
    ensures r.Success? ==> r.value == OpenAIClient(env.apiKey.value, env.apiVersion.value, env.endpoint.value)
    ensures !Tts.Truthy(env.apiKey) ==>
              r == Failure(Exception(ValueError, "AZURE_OPENAI_API_KEY is required but missing."))
    ensures Tts.Truthy(env.apiKey) && !Tts.Truthy(env.apiVersion) ==>
              r == Failure(Exception(ValueError, "AZURE_API_VERSION is required but missing."))
    ensures Tts.Truthy(env.apiKey) && Tts.Truthy(env.apiVersion) && !Tts.Truthy(env.endpoint) ==>
              r == Failure(Exception(ValueError, "AZURE_OPENAI_ENDPOINT is required but missing."))
  {
    if !Tts.Truthy(env.apiKey) then Failure(Exception(ValueError, "AZURE_OPENAI_API_KEY is required but missing."))
    else if !Tts.Truthy(env.apiVersion) then Failure(Exception(ValueError, "AZURE_API_VERSION is required but missing."))
    else if !Tts.Truthy(env.endpoint) then Failure(Exception(ValueError, "AZURE_OPENAI_ENDPOINT is required but missing."))
    else Success(OpenAIClient(env.apiKey.value, env.apiVersion.value, env.endpoint.value))
  }

  // ---------------------------------------------------------------------------
  // transcribe_speech_to_text

  /** `transcribe_speech_to_text(whisper_instance)`. Without an instance a
      `WhisperSTT()` is built first, outside the `try`, so an exception from
      that construction (`construction`) escapes. What recording and
      transcribing then produced is `heard`: the transcript, or an exception
      either step raised, which becomes the empty transcript. */
  function TranscribeSpeechToText(instanceGiven: bool, construction: Option<Exception>,
                                  heard: Result<string, Exception>): (r: Result<string, Exception>)
    ensures !instanceGiven && construction.Some? ==> r == Failure(construction.value)
    ensures instanceGiven || construction.None? ==>
              r.Success? && r.value == (if heard.Success? then heard.value else "")
  {
    if !instanceGiven && construction.Some? then Failure(construction.value)
    else
      match heard
      case Success(transcription) => Success(transcription)
      case Failure(_) => Success("")
  }

  // ---------------------------------------------------------------------------
  // interact_with_openai: the prompt validator

  /** A value in a prompt dictionary: a string, another hashable value (with
      the text `str` gives for it), or an unhashable one such as a list. */
  datatype Value = Str(s: string) | Other(shown: string) | Unhashable(typeName: string)

  /** An element of the prompt list: a dictionary or anything else. */
  datatype Element = Dict(entries: map<string, Value>) | NonDict

  /** The `prompts` argument: a list or anything else. */
  datatype Prompts = PromptList(items: seq<Element>) | NotAList

  const FormatMessage: string := "Prompts are not in the correct format: Should be a list of dictionaries."
  const KeysMessage: string := "Each prompt should contain 'role' and 'content'."
  const ValidRoles: set<string> := {"system", "user"}

  function RoleMessage(shown: string): string
  {
    "Role must be either 'system' or 'user', but got '" + shown + "'."
  }

  /** A prompt the validator lets through. */
  predicate WellFormed(e: Element)
  {
    e.Dict? && "role" in e.entries && "content" in e.entries
    && e.entries["role"].Str? && e.entries["role"].s in ValidRoles
  }

  /** The error one dictionary raises: the key check first, then the role
      check; an unhashable role makes the set lookup raise `TypeError`. */
  function PromptError(d: map<string, Value>): (r: Option<Exception>)
    ensures r.None? <==> WellFormed(Dict(d))
    ensures r.Some? ==> r.value.kind == AssertionError || r.value.kind == TypeError
    ensures !("role" in d && "content" in d) ==> r == Some(Exception(AssertionError, KeysMessage))
    ensures "role" in d && "content" in d && d["role"].Str? && d["role"].s !in ValidRoles ==>
              r == Some(Exception(AssertionError, RoleMessage(d["role"].s)))
    ensures "role" in d && "content" in d && d["role"].Other? ==>
              r == Some(Exception(AssertionError, RoleMessage(d["role"].shown)))
    ensures "role" in d && "content" in d && d["role"].Unhashable? ==>
              r == Some(Exception(TypeError, "unhashable type: '" + d["role"].typeName + "'"))
  {
    if !("role" in d && "content" in d) then Some(Exception(AssertionError, KeysMessage))
    else match d["role"]
      case Str(s) => if s in ValidRoles then None else Some(Exception(AssertionError, RoleMessage(s)))
      case Other(shown) => Some(Exception(AssertionError, RoleMessage(shown)))
      case Unhashable(typeName) => Some(Exception(TypeError, "unhashable type: '" + typeName + "'"))
  }

  /** The error of the first ill-formed dictionary, scanning in order. */
  function FirstPromptError(items: seq<Element>): (r: Option<Exception>)
    requires forall i :: 0 <= i < |items| ==> items[i].Dict?
    ensures r.Some? ==> r.value.kind == AssertionError || r.value.kind == TypeError
  {
    if items == [] then None
    else if PromptError(items[0].entries).Some? then PromptError(items[0].entries)
    else FirstPromptError(items[1..])
  }

  /** What the validation part of `interact_with_openai` raises, if anything:
      the format error for anything but a list of dictionaries, otherwise
      the first dictionary's error; only `AssertionError` and the
      `TypeError` of an unhashable role can come out of it. */
  function ValidationError(prompts: Prompts): (r: Option<Exception>)
    ensures prompts.NotAList? ==> r == Some(Exception(AssertionError, FormatMessage))
    ensures prompts.PromptList? && (exists i :: 0 <= i < |prompts.items| && prompts.items[i].NonDict?) ==>
              r == Some(Exception(AssertionError, FormatMessage))
    ensures r.Some? ==> r.value.kind == AssertionError || r.value.kind == TypeError
  {
    if prompts.NotAList? || exists i :: 0 <= i < |prompts.items| && prompts.items[i].NonDict? then
      Some(Exception(AssertionError, FormatMessage))
    else FirstPromptError(prompts.items)
  }

  lemma {:induction false} FirstPromptErrorNone(items: seq<Element>)
    requires forall i :: 0 <= i < |items| ==> items[i].Dict?
    ensures FirstPromptError(items).None? <==> forall i :: 0 <= i < |items| ==> WellFormed(items[i])
  {
    if items != [] {
      FirstPromptErrorNone(items[1..]);
      assert forall i :: 1 <= i < |items| ==> items[i] == items[1..][i - 1];
    }
  }

  /** The validator accepts exactly the lists whose every element is a
      dictionary with both keys and a `system` or `user` role. */
  lemma ValidationAcceptsExactly(prompts: Prompts)
    ensures ValidationError(prompts).None? <==>
              prompts.PromptList? && forall i :: 0 <= i < |prompts.items| ==> WellFormed(prompts.items[i])
  {
    if prompts.PromptList? && forall i :: 0 <= i < |prompts.items| ==> prompts.items[i].Dict? {
      FirstPromptErrorNone(prompts.items);
    }
  }

  /** The prompts are scanned in order, key check before role check: in a
      list of dictionaries the first ill-formed one decides the error. */
  lemma {:induction false} FirstOffenderDecides(items: seq<Element>, k: nat)
    requires forall i :: 0 <= i < |items| ==> items[i].Dict?
    requires k < |items| && !WellFormed(items[k])
    requires forall i :: 0 <= i < k ==> WellFormed(items[i])
    ensures FirstPromptError(items) == PromptError(items[k].entries)
    ensures ValidationError(PromptList(items)) == PromptError(items[k].entries)
  {
    if k > 0 {
      FirstOffenderDecides(items[1..], k - 1);
    }
  }

  /** The validator as the source runs it: the list and element types are
      checked first, then the dictionaries one by one in order. */
  method CheckPrompts(prompts: Prompts) returns (r: Option<Exception>)
    ensures r == ValidationError(prompts)
  {
    if prompts.NotAList? {
      return Some(Exception(AssertionError, FormatMessage));
    }
    var items := prompts.items;
    var i := 0;
    while i < |items|
      invariant 0 <= i <= |items|
      invariant forall j :: 0 <= j < i ==> items[j].Dict?
    {
      if items[i].NonDict? {
        return Some(Exception(AssertionError, FormatMessage));
      }
      i := i + 1;
    }
    i := 0;
    while i < |items|
      invariant 0 <= i <= |items|
      invariant FirstPromptError(items[i..]) == FirstPromptError(items)
    {
      var e := PromptError(items[i].entries);
      if e.Some? {
        return e;
      }
      assert items[i..][1..] == items[i + 1..];
      i := i + 1;
    }
    return None;
  }

  // ---------------------------------------------------------------------------
  // interact_with_openai: the call

  /** What the chat-completion service gives back: the content of each
      choice (None for a choice without content), or the exception its call
      raised. */
  datatype CompletionOutcome = Choices(contents: seq<Option<string>>) | ClientError(message: string)

  const AiErrorPrefix: string := "Error in the AI response: "
  const NoResponse: string := "No response returned."

  /** The dictionaries of a list of dictionaries: what is sent as `messages`. */
  function Messages(items: seq<Element>): (r: seq<map<string, Value>>)
    requires forall i :: 0 <= i < |items| ==> items[i].Dict?
    ensures |r| == |items| && forall i :: 0 <= i < |items| ==> r[i] == items[i].entries
  {
    seq(|items|, i requires 0 <= i < |items| => items[i].entries)
  }

  /** `interact_with_openai`: validation errors and client errors alike
      escape as an `AssertionError` carrying the prefix; the client is asked
      only once the prompts are valid; a response without choices gives the
      fixed text. */
  method InteractWithOpenAI(prompts: Prompts, complete: seq<map<string, Value>> -> CompletionOutcome)
    returns (r: Result<Option<string>, Exception>)
    ensures r.Failure? ==> r.error.kind == AssertionError && StartsWith(r.error.message, AiErrorPrefix)
    ensures ValidationError(prompts).Some? ==>
              r == Failure(Exception(AssertionError, AiErrorPrefix + ValidationError(prompts).value.message))
    ensures ValidationError(prompts).None? ==> prompts.PromptList? && forall i :: 0 <= i < |prompts.items| ==> prompts.items[i].Dict?
    ensures ValidationError(prompts).None? ==>
              match complete(Messages(prompts.items))
              case ClientError(message) => r == Failure(Exception(AssertionError, AiErrorPrefix + message))
              case Choices(contents) => r == Success(if |contents| > 0 then contents[0] else Some(NoResponse))
  {
    var error := CheckPrompts(prompts);
    if error.Some? {
      return Failure(Exception(AssertionError, AiErrorPrefix + error.value.message));
    }
    ValidationAcceptsExactly(prompts);
    var response := complete(Messages(prompts.items));
    match response
    case ClientError(message) =>
      return Failure(Exception(AssertionError, AiErrorPrefix + message));
    case Choices(contents) =>
      if |contents| > 0 {
        return Success(contents[0]);
      }
      return Success(Some(NoResponse));
  }

  // ---------------------------------------------------------------------------
  // synthesize_and_play_speech

  /** What `synthesize_and_play_speech` did when it returned normally. */
  datatype Playback = NothingToSay | Played(audio: seq<Byte>)

  const StreamErrorMessage: string := "Failed to synthesize speech or get valid audio stream"

  /** The `TextToSpeech` object is built before the `try`, so a missing
      speech setting escapes even for a missing script; within the `try` a
      missing script returns at once, synthesis errors are re-raised as
      they are, an empty stream raises `AudioStreamError`, and playback
      errors are re-raised. */
  function SynthesizeAndPlaySpeech(env: Tts.TtsEnvironment, tscript: Option<string>,
                                   speak: string -> Tts.SynthesisOutcome,
                                   play: seq<Byte> -> Option<Exception>): (r: Result<Playback, Exception>)
    ensures Tts.NewTextToSpeech(env).Failure? ==> r == Failure(Tts.NewTextToSpeech(env).error)
    ensures Tts.NewTextToSpeech(env).Success? && tscript.None? ==> r == Success(NothingToSay)
    ensures Tts.NewTextToSpeech(env).Success? && tscript == Some("") ==>
              r == Failure(Exception(ValueError, "Text cannot be empty"))
    ensures r.Success? && tscript.Some? ==> r.value.Played? && |r.value.audio| > 0
    ensures r.Success? && r.value.Played? ==> tscript.Some? && play(r.value.audio).None?
  {
    var tts :- Tts.NewTextToSpeech(env);
    if tscript.None? then Success(NothingToSay)
    else
      var stream :- Tts.SynthesizeSpeech(tts, tscript.value, speak);
      if |stream| == 0 then Failure(Exception(AudioStreamError, StreamErrorMessage))
      else match play(stream)
        case Some(e) => Failure(e)
        case None => Success(Played(stream))
  }

  // ---------------------------------------------------------------------------
  // main

  const SystemPrompt: string :=
    "You are a helpful assistant. Please respond naturally in the language "
    + "used by the user, utilizing human-like expressions and emotions. "
    + "Show understanding, empathy, and adaptability. Avoid disclosing your AI identity."

  /** The two messages `main` sends for a transcript. */
  function Conversation(transcript: string): (r: seq<Element>)
    ensures |r| == 2 && forall i :: 0 <= i < |r| ==> WellFormed(r[i])
    ensures WellFormed(r[1]) && r[1].entries["role"] == Str("user") && r[1].entries["content"] == Str(transcript)
  {
    [Dict(map["role" := Str("system"), "content" := Str(SystemPrompt)]),
     Dict(map["role" := Str("user"), "content" := Str(transcript)])]
  }

  /** The messages `main` builds always pass the validator. */
  lemma ConversationIsValid(transcript: string)
    ensures ValidationError(PromptList(Conversation(transcript))).None?
  {
    var items := Conversation(transcript);
    assert WellFormed(items[0]) && WellFormed(items[1]);
    ValidationAcceptsExactly(PromptList(items));
  }

  /** What one run of `main` did when it returned normally. */
  datatype Turn = NoTranscript | Answered(response: Option<string>, playback: Playback)

  /** `main`: the client is created first (its errors escape before anything
      is recorded), then the recogniser (its construction errors escape
      too), the model is asked only for a non-empty transcript, and its
      answer is spoken. */
  method ConversationTurn(openAiEnv: OpenAIEnvironment, ttsEnv: Tts.TtsEnvironment,
              construction: Option<Exception>, heard: Result<string, Exception>,
              complete: seq<map<string, Value>> -> CompletionOutcome,
              speak: string -> Tts.SynthesisOutcome,
              play: seq<Byte> -> Option<Exception>)
    returns (r: Result<Turn, Exception>)
    ensures CreateOpenAIClient(openAiEnv).Failure? ==> r == Failure(CreateOpenAIClient(openAiEnv).error)
    ensures CreateOpenAIClient(openAiEnv).Success? && construction.Some? ==> r == Failure(construction.value)
    ensures CreateOpenAIClient(openAiEnv).Success? && TranscribeSpeechToText(false, construction, heard) == Success("") ==>
              r == Success(NoTranscript)
    ensures r.Success? && r.value.Answered? ==>
              var heardText := TranscribeSpeechToText(false, construction, heard);
              heardText.Success? && heardText.value != ""
    ensures CreateOpenAIClient(openAiEnv).Success? && construction.None? && heard.Success? && heard.value != "" ==>
              var sent := Messages(Conversation(heard.value));
              match complete(sent)
              case ClientError(message) => r == Failure(Exception(AssertionError, AiErrorPrefix + message))
              case Choices(contents) =>
                var answer := if |contents| > 0 then contents[0] else Some(NoResponse);
                match SynthesizeAndPlaySpeech(ttsEnv, answer, speak, play)
                case Failure(e) => r == Failure(e)
                case Success(playback) => r == Success(Answered(answer, playback))
  {
    var client := CreateOpenAIClient(openAiEnv);
    if client.Failure? {
      return Failure(client.error);
    }
    var heardText := TranscribeSpeechToText(false, construction, heard);
    if heardText.Failure? {
      return Failure(heardText.error);
    }
    var transcript := heardText.value;
    if transcript == "" {
      return Success(NoTranscript);
    }
    ConversationIsValid(transcript);
    var response := InteractWithOpenAI(PromptList(Conversation(transcript)), complete);
    if response.Failure? {
      return Failure(response.error);
    }
    var playback := SynthesizeAndPlaySpeech(ttsEnv, response.value, speak, play);
    if playback.Failure? {
      return Failure(playback.error);
    }
    return Success(Answered(response.value, playback.value));
  }
}
