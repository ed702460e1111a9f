/**
 * The conversation component (components/ChatInterface.tsx): the message list, the input
 * box, the loading flag, the system instruction and the selected image, changed by the
 * submit handler, the file picker and the four stream callbacks. React state updates are
 * applied one after the other in the order they are made.
 */
module ChatInterface {
  import opened Wrappers
  import opened Types
  import opened JsText
  import opened GeminiService
  import opened ChatUpdates

  const WELCOME_ID: string := "welcome"
  const WELCOME_TEXT: string :=
    "FlashResponse System Online. \nMotor de inferencia: Gemini 2.0 Flash-Lite.\nEstado: Listo para pruebas de latencia ultra-baja."
  const MAX_IMAGE_BYTES: nat := 4 * 1024 * 1024
  const IMAGE_ONLY_PROMPT: string := "Describe esta imagen"

  /** What an accepted submission hands to the streaming client: the placeholder to fill, the prompt and the request options. */
  datatype StreamCall = StreamCall(placeholderId: string, prompt: string, config: RequestConfig)

  /** A picked file: its size in bytes, its MIME type and its base64 payload. */
  datatype PickedFile = PickedFile(size: nat, mimeType: string, data: string)

  /**
   * Submission is refused when there is neither text nor an image, or a reply is loading.
   * The text counts as absent when trimming leaves nothing, that is when every character
   * is white space (see `GuardIsTrim`).
   */
  predicate Blocked(inputValue: string, selectedImage: Option<ImageData>, isLoading: bool) {
    (AllWhitespace(inputValue) && selectedImage.None?) || isLoading
  }

  /** The guard as the handler writes it, `(!inputValue.trim() && !selectedImage) || isLoading`. */
  lemma GuardIsTrim(inputValue: string, selectedImage: Option<ImageData>, isLoading: bool)
    ensures Blocked(inputValue, selectedImage, isLoading) <==>
            (Trim(inputValue) == "" && selectedImage.None?) || isLoading
  {
  }

  /** `userText || "Describe esta imagen"`: only the empty string is replaced. */
  function PromptFor(userText: string): (prompt: string)
    ensures userText != "" ==> prompt == userText
    ensures userText == "" ==> prompt == IMAGE_ONLY_PROMPT
  {
    if userText != "" then userText else IMAGE_ONLY_PROMPT
  }

  /** The user's message; its id is the clock reading in decimal. */
  function UserMessage(stamp: nat, time: int, text: string, image: Option<ImageData>): Message {
    Message(DecimalString(stamp), User, text, image, time, None, None, None)
  }

  /** The id of the model's placeholder: one more than the clock reading, in decimal. */
  function PlaceholderId(stamp: nat): string {
    DecimalString(stamp + 1)
  }

  /** The empty model message that the stream fills in. */
  function Placeholder(stamp: nat, time: int): Message {
    Message(PlaceholderId(stamp), Model, "", None, time, None, Some(true), None)
  }

  /** Whether some callback of the trace ends the stream. */
  predicate HasTerminal(trace: seq<Callback>) {
    exists i :: 0 <= i < |trace| && trace[i].IsTerminal()
  }

  /**
   * With clock readings taken in order, the user message and the placeholder get different
   * ids, as the ids are decimal numerals of different numbers.
   */
  lemma IdsDiffer(userStamp: nat, modelStamp: nat)
    requires userStamp <= modelStamp
    ensures DecimalString(userStamp) != PlaceholderId(modelStamp)
  {
    DecimalStringInjective(userStamp, modelStamp + 1);
  }

  /**
   * Folding a trace into a list that ends with the user message and the placeholder, when
   * no other message has the placeholder's id: only the placeholder changes.
   */
  lemma FoldIntoPlaceholder(earlier: seq<Message>, user: Message, placeholder: Message, trace: seq<Callback>)
    requires user.id != placeholder.id
    requires forall j :: 0 <= j < |earlier| ==> earlier[j].id != placeholder.id
    ensures UpdateAll(earlier + [user, placeholder], placeholder.id, trace) ==
            earlier + [user, ApplyAll(placeholder, trace)]
  {
    var msgs := earlier + [user, placeholder];
    UpdateAllPointwise(msgs, placeholder.id, trace);
    assert msgs[|earlier|] == user && msgs[|earlier| + 1] == placeholder;
    var r := UpdateAll(msgs, placeholder.id, trace);
    forall j | 0 <= j < |r|
      ensures r[j] == (earlier + [user, ApplyAll(placeholder, trace)])[j]
    {
      if j < |earlier| {
        assert msgs[j] == earlier[j];
      }
    }
  }

  lemma UpdateAllStep(msgs: seq<Message>, id: string, trace: seq<Callback>, k: nat)
    requires k < |trace|
    ensures UpdateAll(msgs, id, trace[..k + 1]) == Update(UpdateAll(msgs, id, trace[..k]), id, trace[k])
  {
    assert trace[..k + 1][..k] == trace[..k];
  }

  lemma HasTerminalStep(trace: seq<Callback>, k: nat)
    requires k < |trace|
    ensures HasTerminal(trace[..k + 1]) == (HasTerminal(trace[..k]) || trace[k].IsTerminal())
  {
    var next := trace[..k + 1];
    if HasTerminal(next) && !trace[k].IsTerminal() {
      var i :| 0 <= i < |next| && next[i].IsTerminal();
      assert trace[..k][i] == next[i];
    }
    if HasTerminal(trace[..k]) {
      var i :| 0 <= i < k && trace[..k][i].IsTerminal();
      assert next[i] == trace[..k][i];
    }
    if trace[k].IsTerminal() {
      assert next[k] == trace[k];
    }
  }

  class Conversation {
    var messages: seq<Message>
    var inputValue: string
    var isLoading: bool
    var systemInstruction: string
    var selectedImage: Option<ImageData>

    /** The initial state: the welcome message, stamped with the clock reading `now`. */
    constructor(now: int, defaultSystemPrompt: string)
      ensures messages == [Message(WELCOME_ID, Model, WELCOME_TEXT, None, now, None, None, None)]
      ensures inputValue == "" && !isLoading
      ensures systemInstruction == defaultSystemPrompt && selectedImage.None?
    {
      messages := [Message(WELCOME_ID, Model, WELCOME_TEXT, None, now, None, None, None)];
      inputValue := "";
      isLoading := false;
      systemInstruction := defaultSystemPrompt;
      selectedImage := None;
    }

    /** Typing in the input box. */
    method SetInputValue(value: string)
      modifies this
      ensures inputValue == value
      ensures messages == old(messages) && isLoading == old(isLoading)
      ensures systemInstruction == old(systemInstruction) && selectedImage == old(selectedImage)
    {
      inputValue := value;
    }

    /** Editing the system instruction in the settings panel. */
    method SetSystemInstruction(value: string)
      modifies this
      ensures systemInstruction == value
      ensures messages == old(messages) && isLoading == old(isLoading)
      ensures inputValue == old(inputValue) && selectedImage == old(selectedImage)
    {
      systemInstruction := value;
    }

    /**
     * `handleFileSelect`: a file above 4 MB is refused and the selection is left as it was;
     * otherwise its type and payload become the selected image.
     */
    method SelectFile(file: Option<PickedFile>) returns (tooLarge: bool)
      modifies this
      ensures tooLarge <==> file.Some? && file.value.size > MAX_IMAGE_BYTES
      ensures file.Some? && !tooLarge ==> selectedImage == Some(ImageData(file.value.mimeType, file.value.data))
      ensures file.None? || tooLarge ==> selectedImage == old(selectedImage)
      ensures messages == old(messages) && isLoading == old(isLoading)
      ensures inputValue == old(inputValue) && systemInstruction == old(systemInstruction)
    {
      tooLarge := false;
      if file.Some? {
        if file.value.size > MAX_IMAGE_BYTES {
          tooLarge := true;
          return;
        }
        selectedImage := Some(ImageData(file.value.mimeType, file.value.data));
      }
    }

    /** `clearImage`. */
    method ClearImage()
      modifies this
      ensures selectedImage.None?
      ensures messages == old(messages) && isLoading == old(isLoading)
      ensures inputValue == old(inputValue) && systemInstruction == old(systemInstruction)
    {
      selectedImage := None;
    }

    /**
     * The synchronous part of `handleSubmit`. `userStamp` and `userTime` are the clock
     * readings taken for the user message's id and timestamp, `modelStamp` and `modelTime`
     * those for the placeholder's. A refused submission changes nothing; an accepted one
     * appends the user message and the placeholder, clears the input and the image, sets
     * the loading flag and returns the arguments it hands to the streaming client.
     */
    method Submit(userStamp: nat, userTime: int, modelStamp: nat, modelTime: int)
      returns (call: Option<StreamCall>)
      modifies this
      ensures Blocked(old(inputValue), old(selectedImage), old(isLoading)) ==>
        call.None? &&
        messages == old(messages) && inputValue == old(inputValue) && isLoading == old(isLoading) &&
        selectedImage == old(selectedImage) && systemInstruction == old(systemInstruction)
      ensures !Blocked(old(inputValue), old(selectedImage), old(isLoading)) ==>
        call == Some(StreamCall(PlaceholderId(modelStamp), PromptFor(old(inputValue)),
                                RequestConfig(Some(old(systemInstruction)), old(selectedImage), None))) &&
        messages == old(messages) + [UserMessage(userStamp, userTime, old(inputValue), old(selectedImage)),
                                     Placeholder(modelStamp, modelTime)] &&
        inputValue == "" && selectedImage.None? && isLoading && systemInstruction == old(systemInstruction)
    {
      if Blocked(inputValue, selectedImage, isLoading) {
        return None;
      }
      var userText := inputValue;
      var currentImage := selectedImage;
      inputValue := "";
      selectedImage := None;
      var userMsg := UserMessage(userStamp, userTime, userText, currentImage);
      var modelMsgId := PlaceholderId(modelStamp);
      var modelMsgPlaceholder := Message(modelMsgId, Model, "", None, modelTime, None, Some(true), None);
      messages := messages + [userMsg, modelMsgPlaceholder];
      isLoading := true;
      call := Some(StreamCall(modelMsgId, PromptFor(userText), RequestConfig(Some(systemInstruction), currentImage, None)));
    }

    /** `onFirstToken`: the placeholder's metrics gain `ttft`. */
    method OnFirstToken(id: string, ttft: real)
      modifies this
      ensures messages == Update(old(messages), id, FirstToken(ttft))
      ensures isLoading == old(isLoading) && inputValue == old(inputValue)
      ensures systemInstruction == old(systemInstruction) && selectedImage == old(selectedImage)
    {
      messages := Update(messages, id, FirstToken(ttft));
    }

    /** `onChunk`: the placeholder's content grows by the text. */
    method OnChunk(id: string, text: string)
      modifies this
      ensures messages == Update(old(messages), id, Chunk(text))
      ensures isLoading == old(isLoading) && inputValue == old(inputValue)
      ensures systemInstruction == old(systemInstruction) && selectedImage == old(selectedImage)
    {
      messages := Update(messages, id, Chunk(text));
    }

    /** `onComplete`: the placeholder stops streaming and takes the final metrics; loading ends. */
    method OnComplete(id: string, final: LatencyMetrics)
      modifies this
      ensures messages == Update(old(messages), id, Complete(final))
      ensures !isLoading && inputValue == old(inputValue)
      ensures systemInstruction == old(systemInstruction) && selectedImage == old(selectedImage)
    {
      messages := Update(messages, id, Complete(final));
      isLoading := false;
    }

    /** `onError`: the placeholder gets the error marker and the error flag; loading ends. */
    method OnError(id: string, message: string)
      modifies this
      ensures messages == Update(old(messages), id, Error(message))
      ensures !isLoading && inputValue == old(inputValue)
      ensures systemInstruction == old(systemInstruction) && selectedImage == old(selectedImage)
    {
      messages := Update(messages, id, Error(message));
      isLoading := false;
    }

    /** The callbacks of one stream, delivered to the handlers above in the order they are made. */
    method Deliver(id: string, trace: seq<Callback>)
      modifies this
      ensures messages == UpdateAll(old(messages), id, trace)
      ensures isLoading == (old(isLoading) && !HasTerminal(trace))
      ensures inputValue == old(inputValue)
      ensures systemInstruction == old(systemInstruction) && selectedImage == old(selectedImage)
    {
      var k := 0;
      while k < |trace|
        invariant 0 <= k <= |trace|
        invariant messages == UpdateAll(old(messages), id, trace[..k])
        invariant isLoading == (old(isLoading) && !HasTerminal(trace[..k]))
        invariant inputValue == old(inputValue)
        invariant systemInstruction == old(systemInstruction) && selectedImage == old(selectedImage)
      {
        UpdateAllStep(old(messages), id, trace, k);
        HasTerminalStep(trace, k);
        match trace[k] {
          case FirstToken(ttft) => OnFirstToken(id, ttft);
          case Chunk(text) => OnChunk(id, text);
          case Complete(final) => OnComplete(id, final);
          case Error(message) => OnError(id, message);
        }
        k := k + 1;
      }
      assert trace[..k] == trace;
    }

    /**
     * `handleSubmit` from start to end: the submission, the stream it starts, and the
     * callbacks that stream makes. When accepted and no earlier message shares the
     * placeholder's id, the list ends with the user message and the placeholder with the
     * whole trace folded into it, and loading is over.
     */
    method HandleSubmit(userStamp: nat, userTime: int, modelStamp: nat, modelTime: int,
                        stream: seq<StreamItem>, start: real, finish: real)
      returns (request: Option<Request>, trace: seq<Callback>)
      requires start < finish
      modifies this
      ensures Blocked(old(inputValue), old(selectedImage), old(isLoading)) ==>
        request.None? && trace == [] &&
        messages == old(messages) && inputValue == old(inputValue) && isLoading == old(isLoading) &&
        selectedImage == old(selectedImage)
      ensures !Blocked(old(inputValue), old(selectedImage), old(isLoading)) ==>
        request == Some(BuildRequest(PromptFor(old(inputValue)), FLASH_LITE,
                                     RequestConfig(Some(old(systemInstruction)), old(selectedImage), None))) &&
        trace == ExpectedTrace(start, finish, stream) &&
        messages == UpdateAll(old(messages) + [UserMessage(userStamp, userTime, old(inputValue), old(selectedImage)),
                                               Placeholder(modelStamp, modelTime)],
                              PlaceholderId(modelStamp), trace) &&
        !isLoading && inputValue == "" && selectedImage.None?
      ensures !Blocked(old(inputValue), old(selectedImage), old(isLoading)) && userStamp <= modelStamp &&
              (forall j :: 0 <= j < |old(messages)| ==> old(messages)[j].id != PlaceholderId(modelStamp)) ==>
        messages == old(messages) + [UserMessage(userStamp, userTime, old(inputValue), old(selectedImage)),
                                     ApplyAll(Placeholder(modelStamp, modelTime), trace)]
      ensures systemInstruction == old(systemInstruction)
    {
      var call := Submit(userStamp, userTime, modelStamp, modelTime);
      if call.None? {
        return None, [];
      }
      var sent;
      sent, trace := StreamResponse(call.value.prompt, FLASH_LITE, call.value.config, stream, start, finish);
      request := Some(sent);
      Deliver(call.value.placeholderId, trace);
      TraceHasTerminal(start, finish, stream);
      if userStamp <= modelStamp &&
         (forall j :: 0 <= j < |old(messages)| ==> old(messages)[j].id != PlaceholderId(modelStamp)) {
        IdsDiffer(userStamp, modelStamp);
        FoldIntoPlaceholder(old(messages), UserMessage(userStamp, userTime, old(inputValue), old(selectedImage)),
                            Placeholder(modelStamp, modelTime), trace);
      }
    }
  }

  /** Every trace of the streaming client ends loading: it contains a terminal callback. */
  lemma TraceHasTerminal(start: real, finish: real, stream: seq<StreamItem>)
    requires start < finish
    ensures HasTerminal(ExpectedTrace(start, finish, stream))
  {
    var t := ExpectedTrace(start, finish, stream);
    assert t[|t| - 1] == Outcome(start, finish, stream);
  }
}
