/**
 The reply payloads of `GoogleAssistant`: `tell`, `ask`, `build_input_prompt`
 and the private `build_response` and `build_expected_intent`. None of them
 reads or writes the object's state, so each is a function from its
 arguments to a reply or a raised error.
 */
module Payloads {
  import opened Results
  import opened Json
  import Ssml

  /** `INPUTS_MAX`: at most one no-input (silence) reprompt. */
  const InputsMax: nat := 1

  /** `StandardIntents::TEXT`, the intent that expects a plain-text reply. */
  const StandardTextIntent: string := "assistant.intent.action.TEXT"

  /** `{ state: nil, data: {} }.to_json`, the token used when `ask` gets no dialog state. */
  const DefaultDialogState: string := "{\"state\":null,\"data\":{}}"

  /** The slot a speech text goes under: marked-up speech or plain text. */
  function SpeechKey(isSsml: bool): string {
    if isSsml then "ssml" else "text_to_speech"
  }

  /** `{ ssml: text }` or `{ text_to_speech: text }`. */
  function Speech(isSsml: bool, text: Value): Value {
    Obj(map[SpeechKey(isSsml) := text])
  }

  // ---------------------------------------------------------------------------
  // Reading replies back

  /** A reply: a hash whose only key `json` holds the response hash. */
  predicate IsReply(r: Value) {
    r.Obj? && r.fields.Keys == {"json"} && r.fields["json"].Obj?
  }

  /** The response hash inside a reply. */
  function Body(r: Value): map<string, Value>
    requires IsReply(r)
  {
    r.fields["json"].fields
  }

  /** The text stored under `key` in a one-key hash, if it is one. */
  function SlotText(v: Value, key: string): Option<Value> {
    if v.Obj? && v.fields.Keys == {key} then Some(v.fields[key]) else None
  }

  /** The texts stored under `key` in a list of one-key hashes, if all are. */
  function SlotTexts(items: seq<Value>, key: string): Option<seq<Value>> {
    if items == [] then Some([])
    else
      match (SlotText(items[0], key), SlotTexts(items[1..], key))
      case (Some(t), Some(ts)) => Some([t] + ts)
      case _ => None
  }

  /** Reads a prompt bundle back as its initial text and its reprompt texts,
      provided every entry of it sits under `key`. */
  function ReadPrompt(bundle: Value, key: string): Option<(Value, seq<Value>)> {
    if !(bundle.Obj? && bundle.fields.Keys == {"initial_prompts", "no_input_prompts"}) then None
    else
      var initial := bundle.fields["initial_prompts"];
      var reprompts := bundle.fields["no_input_prompts"];
      if !(initial.Arr? && |initial.items| == 1 && reprompts.Arr?) then None
      else
        match (SlotText(initial.items[0], key), SlotTexts(reprompts.items, key))
        case (Some(t), Some(ts)) => Some((t, ts))
        case _ => None
  }

  // ---------------------------------------------------------------------------
  // build_response, build_expected_intent, build_input_prompt

  /** `build_response`: each optional key is emitted only when its value is
      truthy, and `final_response` only for a reply that ends the dialog. */
  function BuildResponse(token: Value, expectUserResponse: bool, expectedInputs: Value,
                         finalResponse: Value): (r: Value)
    ensures IsReply(r)
    ensures Body(r).Keys <= {"conversation_token", "expect_user_response", "expected_inputs", "final_response"}
    ensures "expect_user_response" in Body(r) && Body(r)["expect_user_response"] == Bool(expectUserResponse)
    ensures "conversation_token" in Body(r) <==> Truthy(token)
    ensures "conversation_token" in Body(r) ==> Body(r)["conversation_token"] == token
    ensures "expected_inputs" in Body(r) <==> Truthy(expectedInputs)
    ensures "expected_inputs" in Body(r) ==> Body(r)["expected_inputs"] == expectedInputs
    ensures "final_response" in Body(r) <==> !expectUserResponse && Truthy(finalResponse)
    ensures "final_response" in Body(r) ==> Body(r)["final_response"] == finalResponse
  {
    var withToken := if Truthy(token) then map["conversation_token" := token] else map[];
    var withFlag := withToken["expect_user_response" := Bool(expectUserResponse)];
    var withInputs := if Truthy(expectedInputs) then withFlag["expected_inputs" := expectedInputs] else withFlag;
    var response :=
      if !expectUserResponse && Truthy(finalResponse) then withInputs["final_response" := finalResponse]
      else withInputs;
    Obj(map["json" := Obj(response)])
  }

  /** `build_expected_intent`: nil or the empty string raises "Invalid intent". */
  function BuildExpectedIntent(intent: Value): (r: Result<Value>)
    ensures r.Err? <==> intent.Null? || intent == Str("")
    ensures r.Err? ==> r.error == Raised("Invalid intent")
    ensures r.Ok? ==> r.value.Obj? && r.value.fields.Keys == {"intent"} && r.value.fields["intent"] == intent
  {
    if intent.Null? || intent == Str("") then Err(Raised("Invalid intent"))
    else Ok(Obj(map["intent" := intent]))
  }

  /** The no-input prompts, each under the same slot, in order. */
  function Reprompts(isSsml: bool, noInputs: seq<Value>): (r: seq<Value>)
    ensures |r| == |noInputs|
  {
    if noInputs == [] then [] else [Speech(isSsml, noInputs[0])] + Reprompts(isSsml, noInputs[1..])
  }

  /** The bundle `build_input_prompt` builds once the count check has passed. */
  function PromptBundle(isSsml: bool, initial: Value, noInputs: seq<Value>): Value {
    Obj(map["initial_prompts" := Arr([Speech(isSsml, initial)]),
            "no_input_prompts" := Arr(Reprompts(isSsml, noInputs))])
  }

  /** Reading the reprompts back under their own slot gives the texts again;
      under the other slot nothing can be read unless there are none. */
  lemma {:induction false} RepromptsRoundTrip(isSsml: bool, noInputs: seq<Value>)
    ensures SlotTexts(Reprompts(isSsml, noInputs), SpeechKey(isSsml)) == Some(noInputs)
    ensures noInputs != [] ==> SlotTexts(Reprompts(isSsml, noInputs), SpeechKey(!isSsml)).None?
  {
    if noInputs != [] {
      var r := Reprompts(isSsml, noInputs);
      assert r[1..] == Reprompts(isSsml, noInputs[1..]);
      RepromptsRoundTrip(isSsml, noInputs[1..]);
      assert [noInputs[0]] + noInputs[1..] == noInputs;
    }
  }

  /** A bundle is all marked-up speech or all plain text: it reads back
      completely under its own slot and not at all under the other. */
  lemma PromptBundleRoundTrip(isSsml: bool, initial: Value, noInputs: seq<Value>)
    ensures ReadPrompt(PromptBundle(isSsml, initial, noInputs), SpeechKey(isSsml)) == Some((initial, noInputs))
    ensures ReadPrompt(PromptBundle(isSsml, initial, noInputs), SpeechKey(!isSsml)).None?
  {
    RepromptsRoundTrip(isSsml, noInputs);
  }

  /** `build_input_prompt(is_ssml, initial_prompt, no_inputs)`: more than
      `InputsMax` reprompts raises (the `return nil` after `handle_error`
      never runs); otherwise one initial prompt and the reprompts in order,
      all under the slot `is_ssml` selects. */
  function BuildInputPrompt(isSsml: bool, initial: Value, noInputs: seq<Value>): (r: Result<Value>)
    ensures r.Err? <==> |noInputs| > InputsMax
    ensures r.Err? ==> r.error == Raised("Invalid number of no inputs")
    ensures r.Ok? ==> ReadPrompt(r.value, SpeechKey(isSsml)) == Some((initial, noInputs))
    ensures r.Ok? ==> ReadPrompt(r.value, SpeechKey(!isSsml)).None?
  {
    if |noInputs| > InputsMax then Err(Raised("Invalid number of no inputs"))
    else
      PromptBundleRoundTrip(isSsml, initial, noInputs);
      Ok(PromptBundle(isSsml, initial, noInputs))
  }

  // ---------------------------------------------------------------------------
  // tell and ask

  /** `tell(message)`: a reply that ends the dialog and speaks the message,
      unchanged, under the slot its classification selects; nil raises
      "Missing text" and no reply is built. */
  function Tell(message: Option<string>): (r: Result<Value>)
    ensures message.None? <==> r.Err?
    ensures r.Err? ==> r.error == Raised("Missing text")
    ensures r.Ok? ==> IsReply(r.value)
    ensures r.Ok? ==> Body(r.value).Keys == {"expect_user_response", "final_response"}
    ensures r.Ok? ==> Body(r.value)["expect_user_response"] == Bool(false)
    ensures r.Ok? ==> Body(r.value)["final_response"]
                        == Obj(map["speech_response" :=
                                   Speech(Ssml.IsSpeakDocument(message.value), Str(message.value))])
  {
    match Ssml.IsSsml(message)
    case Err(e) => Err(e)
    case Ok(isSsml) =>
      var finalResponse := Obj(map["speech_response" := Speech(isSsml, Str(message.value))]);
      Ok(BuildResponse(Null, false, Null, finalResponse))
  }

  /** The dialog state `ask` carries forward: nil becomes the default token,
      any other value is kept as it is. */
  function AskToken(dialogState: Value): Value {
    if dialogState.Null? then Str(DefaultDialogState) else dialogState
  }

  /** `ask(input_prompt, dialog_state = nil)`: nil prompt and array dialog
      state raise; otherwise a reply that keeps the dialog open, expects one
      plain-text input and carries the dialog state when it is truthy. */
  function Ask(inputPrompt: Value, dialogState: Value): (r: Result<Value>)
    ensures inputPrompt.Null? ==> r == Err(Raised("Invalid input prompt"))
    ensures !inputPrompt.Null? && dialogState.Arr? ==> r == Err(Raised("Invalid dialog state"))
    ensures r.Ok? <==> !inputPrompt.Null? && !dialogState.Arr?
    ensures r.Ok? ==> IsReply(r.value)
    ensures r.Ok? ==> "expect_user_response" in Body(r.value)
                      && Body(r.value)["expect_user_response"] == Bool(true)
    ensures r.Ok? ==> "final_response" !in Body(r.value)
    ensures r.Ok? ==> ("conversation_token" in Body(r.value) <==> dialogState.Null? || Truthy(dialogState))
    ensures r.Ok? && dialogState.Null? ==> Body(r.value)["conversation_token"] == Str(DefaultDialogState)
    ensures r.Ok? && Truthy(dialogState) ==> Body(r.value)["conversation_token"] == dialogState
    ensures r.Ok? ==> "expected_inputs" in Body(r.value)
                      && Body(r.value)["expected_inputs"].Arr?
                      && |Body(r.value)["expected_inputs"].items| == 1
  {
    if inputPrompt.Null? then Err(Raised("Invalid input prompt"))
    else
      var prompt :=
        if inputPrompt.Str? then PromptBundle(Ssml.Matches(inputPrompt.s), inputPrompt, [])
        else inputPrompt;
      if dialogState.Arr? then Err(Raised("Invalid dialog state"))
      else
        match BuildExpectedIntent(Str(StandardTextIntent))
        case Err(e) => Err(e)
        case Ok(expectedIntent) =>
          var expectedInputs := Arr([Obj(map["input_prompt" := prompt,
                                             "possible_intents" := Arr([expectedIntent])])]);
          Ok(BuildResponse(AskToken(dialogState), true, expectedInputs, Null))
  }

  /** The one expected input of an `ask` reply. */
  function ExpectedInput(r: Value): Value
    requires IsReply(r) && "expected_inputs" in Body(r)
    requires Body(r)["expected_inputs"].Arr? && |Body(r)["expected_inputs"].items| == 1
  {
    Body(r)["expected_inputs"].items[0]
  }

  /** The expected input of an `ask` reply names exactly the plain-text
      intent, and its prompt is the given structure, or, for a string, a
      bundle holding the string as its one initial prompt, no reprompts, and
      the slot the SSML classifier selects. */
  lemma AskExpectedInput(inputPrompt: Value, dialogState: Value)
    requires Ask(inputPrompt, dialogState).Ok?
    ensures var e := ExpectedInput(Ask(inputPrompt, dialogState).value);
      && e.Obj? && e.fields.Keys == {"input_prompt", "possible_intents"}
      && e.fields["possible_intents"] == Arr([Obj(map["intent" := Str(StandardTextIntent)])])
      && (!inputPrompt.Str? ==> e.fields["input_prompt"] == inputPrompt)
      && (inputPrompt.Str? ==>
            var key := SpeechKey(Ssml.IsSpeakDocument(inputPrompt.s));
            ReadPrompt(e.fields["input_prompt"], key) == Some((inputPrompt, [])))
  {
    if inputPrompt.Str? {
      Ssml.MatchesIff(inputPrompt.s);
      PromptBundleRoundTrip(Ssml.Matches(inputPrompt.s), inputPrompt, []);
    }
  }

  /** Every reply `tell` or `ask` builds keeps the response shape: exactly one
      of `final_response` (ending the dialog) and `expected_inputs`
      (continuing it) is present, and which one agrees with
      `expect_user_response`. */
  ghost predicate WellFormedReply(r: Value) {
    && IsReply(r)
    && "expect_user_response" in Body(r)
    && Body(r)["expect_user_response"].Bool?
    && ("final_response" in Body(r) <==> !Body(r)["expect_user_response"].b)
    && ("expected_inputs" in Body(r) <==> Body(r)["expect_user_response"].b)
  }

  lemma RepliesWellFormed(message: Option<string>, inputPrompt: Value, dialogState: Value)
    ensures Tell(message).Ok? ==> WellFormedReply(Tell(message).value)
    ensures Ask(inputPrompt, dialogState).Ok? ==> WellFormedReply(Ask(inputPrompt, dialogState).value)
  {
  }

  // ---------------------------------------------------------------------------
  // Worked cases

  /** A marked-up message is spoken under `ssml` and nothing else. */
  lemma TellMarkedUp()
    ensures Tell(Some("<speak>Hi</speak>"))
      == Ok(Obj(map["json" := Obj(map[
              "expect_user_response" := Bool(false),
              "final_response" := Obj(map["speech_response" := Obj(map["ssml" := Str("<speak>Hi</speak>")])])])]))
  {
    var m := "<speak>Hi</speak>";
    Ssml.AcceptsDocument();
    var r := Tell(Some(m)).value;
    var body := Body(r);
    var speech := Obj(map["speech_response" := Speech(true, Str(m))]);
    assert body == map["expect_user_response" := Bool(false), "final_response" := speech];
    assert r == Obj(map["json" := Obj(body)]);
  }

  /** A plain message is spoken under `text_to_speech`. */
  lemma TellPlain()
    ensures Tell(Some("Hi"))
      == Ok(Obj(map["json" := Obj(map[
              "expect_user_response" := Bool(false),
              "final_response" := Obj(map["speech_response" := Obj(map["text_to_speech" := Str("Hi")])])])]))
  {
    var m := "Hi";
    Ssml.RejectsPlainText();
    var r := Tell(Some(m)).value;
    var body := Body(r);
    var speech := Obj(map["speech_response" := Speech(false, Str(m))]);
    assert body == map["expect_user_response" := Bool(false), "final_response" := speech];
    assert r == Obj(map["json" := Obj(body)]);
  }

  /** Without a dialog state the default token is carried forward. */
  lemma AskWithoutDialogState()
    ensures Ask(Str("Say something"), Null).Ok?
    ensures Body(Ask(Str("Say something"), Null).value)["conversation_token"] == Str(DefaultDialogState)
  {
  }

  /** A `false` dialog state is accepted but leaves the token out. */
  lemma AskWithFalseDialogState()
    ensures Ask(Str("Say something"), Bool(false)).Ok?
    ensures "conversation_token" !in Body(Ask(Str("Say something"), Bool(false)).value)
  {
  }

  /** An array dialog state raises, and two reprompts are one too many. */
  lemma RejectedArguments()
    ensures Ask(Str("Prompt"), Arr([])) == Err(Raised("Invalid dialog state"))
    ensures BuildInputPrompt(false, Str("Hi"), [Str("a"), Str("b")]) == Err(Raised("Invalid number of no inputs"))
  {
  }
}
