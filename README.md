# GoogleAssistant webhook replies, modelled in Dafny

This project models `GoogleAssistant` (`lib/google_assistant.rb`), the one class
of a Ruby library for conversational webhooks. The class has three parts:

- It reads the invocation request. `inputs`, `intent_string`, `conversation_params`,
  and the `intent`, `arguments` and `conversation` values it computes on first use
  and then keeps.
- It classifies a message as SSML (speech markup) or plain text (`is_ssml`).
- It builds the two reply shapes. `tell` ends the dialog with a spoken answer.
  `ask` keeps the dialog open with a prompt, a dialog-state token and one
  expected plain-text intent.

Every failure in the class goes through `handle_error`, and `handle_error` always
raises. The `return false` after it in `is_ssml` and the `return nil` after it in
`build_input_prompt` never run. So `tell(nil)` raises "Missing text". It does not
fall back to a plain-text reply.

Files:

- `Results.dfy`: `Option`, and `Result` with an `Error`. An `Error` is either
  `Raised(message)`, for `handle_error`, or `NoMethodError`, for the Ruby-level
  faults the library never checks for.
- `Json.dfy`: the value type for requests, dialog states and replies. Ruby `nil`
  is `Null`. `Truthy` is Ruby truthiness: anything except `nil` and `false`.
- `Ssml.dfy`: the regular expression `^<speak\b[^>]*>(.*?)<\/speak>$` written by
  hand, with Ruby's meanings:
  - `^` and `$` are line anchors;
  - `.` does not match a line feed;
  - `[^>]` does match a line feed.
  So a message is SSML when some line holds `<speak…>…</speak>` with the content
  on that one line. The opening tag itself may run over several lines.
  `IsSpeakDocument` is the declarative reading and `Matches` is the scanner.
  `MatchesIff` proves they agree on every text.
- `Payloads.dfy`: `build_response`, `build_expected_intent`,
  `build_input_prompt`, `tell` and `ask`. They are functions, because none of
  them touches the object's state. `build_response` fills a local hash one key at
  a time, and that becomes a chain of conditional map updates.
  `ReadPrompt` reads a prompt bundle back. It is the inverse that the
  prompt-building contracts are stated against.
- `Request.dfy`: the request accessors, as functions of the request hash.
- `Assistant.dfy`: the `GoogleAssistant` class. It holds the request, the
  response headers, and the three cache fields that `intent`, `arguments` and
  `conversation` fill on first use. Its `Valid()` says that a cached value is
  always what the request gives, so every call returns that value.

## Model

| member | source | states |
|---|---|---|
| `Ssml.IsSsml` | lib/google_assistant.rb:138-145 | nil raises "Missing text" and yields no classification. A string is SSML exactly when the line-anchored `<speak…>…</speak>` pattern matches it. |
| `Ssml.MatchesIff` | lib/google_assistant.rb:144 | The scanner accepts a text if and only if some start, `>` and `</speak>` positions satisfy every part of the pattern under Ruby's anchor and dot rules. |
| `Ssml.NextGt` | lib/google_assistant.rb:144 | `[^>]*>`: the result is the first `>` at or after the start, or the end of the text when there is none. |
| `Ssml.CloseOnLineIff` | lib/google_assistant.rb:144 | `(.*?)<\/speak>$`: the line scan succeeds if and only if a closing tag ends the line before any line feed. |
| `Ssml.MatchAtIff` | lib/google_assistant.rb:144 | A match starts at a position if and only if the declarative pattern holds there for some `>` and closing positions. |
| `Ssml.ScanFromIff` | lib/google_assistant.rb:144 | Scanning from a position succeeds if and only if a match starts at that position or later. |
| `Ssml.AcceptsDocument` | lib/google_assistant.rb:144 | `<speak>Hi</speak>` is SSML. |
| `Ssml.AcceptsLaterLine` | lib/google_assistant.rb:144 | A document on a later line than other text is SSML, because `^` and `$` are line anchors. |
| `Ssml.AcceptsSplitOpeningTag` | lib/google_assistant.rb:144 | An opening tag split by a line feed is SSML, because `[^>]` matches a line feed. |
| `Ssml.RejectsPlainText` | lib/google_assistant.rb:144 | `Hi` is not SSML. |
| `Ssml.RejectsLongerTag` | lib/google_assistant.rb:144 | `<speaker>…</speak>` is not SSML, because of the word boundary. |
| `Ssml.RejectsContentOverLineFeed` | lib/google_assistant.rb:144 | Content that runs over a line feed is not SSML. |
| `Payloads.BuildResponse` | lib/google_assistant.rb:117-128 | The reply is always `{json: …}` and always has `expect_user_response`. `conversation_token` and `expected_inputs` are present exactly when truthy. `final_response` is present exactly when the dialog ends and a truthy final response was given. Each value is stored unchanged, and no other key appears. |
| `Payloads.BuildExpectedIntent` | lib/google_assistant.rb:130-136 | nil or `""` raises "Invalid intent". Any other value gives `{intent: value}`. |
| `Payloads.Reprompts` | lib/google_assistant.rb:91-93 | `no_inputs.map`: one prompt per no-input text. |
| `Payloads.RepromptsRoundTrip` | lib/google_assistant.rb:91-106 | The no-input prompts read back, under their slot, as the given texts in the same order and number. Under the other slot they do not read back at all. |
| `Payloads.PromptBundleRoundTrip` | lib/google_assistant.rb:86-112 | A bundle reads back as its one initial text and its no-input texts under the chosen slot, and not under the other. It is never mixed SSML and plain text. |
| `Payloads.BuildInputPrompt` | lib/google_assistant.rb:80-113 | More than `INPUTS_MAX` (1) no-input texts raises "Invalid number of no inputs". Otherwise the result reads back as exactly one initial prompt and the no-input texts, in order, all under `ssml` or all under `text_to_speech`. |
| `Payloads.Tell` | lib/google_assistant.rb:38-48 | nil raises "Missing text" and no reply is built. Otherwise the reply ends the dialog. It has only `expect_user_response = false` and `final_response`. The speech response has the one key the SSML reading selects, holding the message unchanged. |
| `Payloads.Ask` | lib/google_assistant.rb:50-78 | A nil prompt raises "Invalid input prompt". An array dialog state raises "Invalid dialog state". Every other call gives a reply with `expect_user_response = true`, no `final_response` and exactly one expected input. A nil dialog state becomes the default token. Any other dialog state is kept, and it is emitted only when truthy. |
| `Payloads.AskExpectedInput` | lib/google_assistant.rb:55-70 | The expected input's `possible_intents` is exactly `[{intent: StandardIntents::TEXT}]`. A non-string prompt is stored unchanged. A string prompt becomes a bundle holding it as the one initial prompt, with no no-input prompts, under the slot the SSML reading selects. |
| `Payloads.RepliesWellFormed` | lib/google_assistant.rb:117-128 | Every `tell` or `ask` reply has exactly one of `final_response` and `expected_inputs`. Which one it has agrees with `expect_user_response`. |
| `Payloads.TellMarkedUp` | lib/google_assistant.rb:38-47 | `tell("<speak>Hi</speak>")` is exactly the reply that speaks it under `ssml`. |
| `Payloads.TellPlain` | lib/google_assistant.rb:38-47 | `tell("Hi")` is exactly the reply that speaks it under `text_to_speech`. |
| `Payloads.AskWithoutDialogState` | lib/google_assistant.rb:59-60 | With no dialog state, the token is the serialized `{state: nil, data: {}}`. |
| `Payloads.AskWithFalseDialogState` | lib/google_assistant.rb:120 | A `false` dialog state is accepted, but the reply has no `conversation_token`. |
| `Payloads.RejectedArguments` | lib/google_assistant.rb:61-63 | `ask` with an array dialog state raises. So does `build_input_prompt` with two no-input texts. |
| `Request.Inputs` | lib/google_assistant.rb:147-149 | A missing or falsy `inputs` raises "Missing inputs from request body". Otherwise the value is returned unchanged. |
| `Request.FirstInput` | lib/google_assistant.rb:152 | `inputs[0]`: the inputs error propagates. Once `inputs` is given, the result is a hash exactly when `inputs` is a non-empty array whose first element is a hash, and it is that first element; any other shape is a `NoMethodError`. |
| `Request.IntentString` | lib/google_assistant.rb:151-153 | The inputs error comes first. Then a missing or falsy `inputs[0]["intent"]` raises "Missing intent from request body". Otherwise the value is returned. |
| `Request.IntentOf` | lib/google_assistant.rb:24-26 | The intent wraps `intent_string`, or raises its error. |
| `Request.WrapArguments` | lib/google_assistant.rb:29-31 | One `Argument` per raw argument, in order. |
| `Request.ArgumentsOf` | lib/google_assistant.rb:28-32 | The inputs error propagates. Once `inputs[0]` is a hash, the result is a list exactly when `inputs[0]["arguments"]` is an array, and it holds one `Argument` per element, in order. |
| `Request.WellFormedRequestIntent` | lib/google_assistant.rb:24-26 | A request whose `inputs` array starts with a hash holding a truthy `intent` gives `Intent` of that value. |
| `Request.ConversationParams` | lib/google_assistant.rb:155-157 | The request's `conversation` when present and truthy, otherwise `{}`. It never raises and is always truthy. |
| `Request.ConversationOf` | lib/google_assistant.rb:34-35 | The conversation wraps `conversation_params` unchanged: the request's truthy `conversation`, otherwise `{}`. |
| `Assistant.GoogleAssistant.constructor` | lib/google_assistant.rb:11-14 | Keeps the request and the headers. Nothing is cached yet. |
| `Assistant.GoogleAssistant.Intent` | lib/google_assistant.rb:24-26 | Returns what the request gives. It is computed on the first successful call and kept, and a later call returns the cached value without changing it. A raising call caches nothing. |
| `Assistant.GoogleAssistant.Arguments` | lib/google_assistant.rb:28-32 | Same as `Intent`, for the argument list. |
| `Assistant.GoogleAssistant.Conversation` | lib/google_assistant.rb:34-36 | Returns the conversation the request gives, and it is cached after the first call. |
| `Assistant.GoogleAssistant.RespondTo` | lib/google_assistant.rb:16-22 | After the caller's block, `Google-Assistant-API-Version` is `"v1"` and every other header is as the block left it. This holds even when resolving the intent then raises. The result is the request's intent, and the intent cache is left as `intent` leaves it: kept when already set, filled on success, empty on failure. |

## Left out

- `respond_to`'s block is arbitrary caller code. It is modelled only by what it does to the headers, applied before the header is written. Its other effects, and any exception it raises, are not modelled.
- `intent.call` (line 21) runs code in the `Intent` class, and `lib/google_assistant/intent.rb` is not part of this model. `RespondTo` returns the intent the call is made on.
- The `Intent`, `Argument`, `Conversation` and `StandardIntents` classes, loaded by the glob `require` at line 3, are not part of this model. The first three are wrappers that keep their raw value. `StandardIntents::TEXT` is taken to be `"assistant.intent.action.TEXT"`, and the proofs use only that it is a non-empty string.
- The HTTP response object is reduced to its header map.
- JSON serialisation (`to_json`, line 60) is not modelled. The default dialog-state token is the fixed string `{"state":null,"data":{}}`.
- Hash key order and the symbol/string key distinction are not modelled. Hashes are maps with string keys.
- Ruby-level faults are collapsed into one `NoMethodError` value, and Ruby's other indexing rules (`String#[]`, `Integer#[]`) are not followed. These faults are an empty or non-array `inputs`, a first input that is not a hash, and a missing `arguments` (`nil.map`).
- `Request.ArgumentsOf`: Ruby maps a hash `arguments` pair by pair (`Hash#map` passes each `[key, value]` pair to the block), giving one `Argument` per pair; the model raises `NoMethodError` instead, because it does not model hash order. Other non-array values are collapsed into the same fault.
- `Payloads.BuildInputPrompt`: a nil `no_inputs` is not modelled, because it fails in Ruby with a `NoMethodError` at `nil > 1` (line 81). The `is_ssml` flag is taken as a boolean, because it is only tested for truthiness.
- `Ssml.IsSsml`: returns whether the pattern matches, not the match index that `=~` gives, because every caller only tests its truthiness. A message that is neither nil nor a string is not modelled, because what `=~` does on other objects depends on the Ruby version. The model's `\b` counts only ASCII letters, digits and `_` as word characters, while Ruby's `\b` uses Unicode word characters; the two differ when a non-ASCII letter or digit follows `<speak` (`<speakä>x</speak>` is SSML in the model but not in Ruby).
- `Payloads.Tell`: takes nil or a string, for the same reason as `Ssml.IsSsml`.
- A general regular-expression engine is not modelled. Only this one pattern is written out.

## Notes on the code

- Two behaviours of the code differ from a natural reading, and the model follows the code in both.
  - `tell(nil)` raises rather than sending a plain-text reply, because `handle_error` raises before `return false`.
  - The SSML test is line-anchored, not whole-text. `"Say:\n<speak>Hi</speak>"` is classified as SSML (`Ssml.AcceptsLaterLine`), and the whole message is then sent under `ssml`.
- The functions have no hidden state, so two calls with the same arguments give the same reply.
