# bbc_demo in Dafny

A model of the four YARP modules that let the iCub robot hold a spoken conversation run by a
TalkML dialogue backend, and proofs about that model:

- **the dialogue controller** (`bbc_demo.py`). It loads a keyword grammar file. It detects the
  grammar slots g1 and g2 in what the user said. It sends `heard`, `nomatch`, `noinput` and
  `getSayNext` requests to the backend. It renders the backend's `sayThis` into speech, gestures
  and emotions, pausing the sentence tokenizer around its own speech. Its `updateModule` loop
  works through the states WAIT2TALK, WAIT2HEAR, HEARING and HEARD, with `no_input`, `no_match`
  and `heard` timeouts.
- **body control** (`icubBodyControl.py`). An RPC server with a store of gestures. It answers
  `move` and `getDuration`, with the `mirror` and `delay=` options, by turning each body part of
  a gesture into timed ctpService position commands.
- **the sentence tokenizer** (`sentence_tokenizer.py`). An RPC pause switch, and the callback
  that turns stretches of audio into "speaking", "spoken" or "classify" bottles.
- **the offline transcriber** (`deepSpeechToText.py`). It queues "classify" recordings and
  transcribes one per tick into "spoken" bottles.

The files:

- `common.dfy`, `bottles.dfy`: `Option` and YARP bottles.
- `text.dfy`: the Python string operations the code relies on.
- `grammar.dfy`: the grammar table and `check_grammar`.
- `dialogue.dfy`: the controller's fields as a `Session` value, and each of its operations as a
  function.
- `dialogue_props.dfy`: what is proved about those functions.
- `controller.dfy`: the controller as a class whose methods update its fields in place. Each
  method is proved equal to its function in `dialogue.dfy`.
- `body_control.dfy`, `sentence_tokenizer.dfy`, `speech_to_text.dfy`: the other three modules.
- `integration.dfy`: how the modules' messages fit together.

Everything the controller does to the outside world is an event appended to a trace: a backend
request, a spoken text, a body-control write, an emotion, or a tokenizer command. The backend's
answer to a request, the clock, Python's `float` and the DeepSpeech and Google recognizers are
inputs of the operations.

## Model

| member | source | states |
|---|---|---|
| Text.Contains | bbc_demo.py:508-516 | Python's `in` on strings holds exactly when the word occurs at some index |
| Text.SplitStr | bbc_demo.py:232-234 | `split` yields at least one piece and no piece contains the separator |
| Text.SplitJoin | bbc_demo.py:507 | joining the pieces of a split with the same separator gives back the string |
| Text.Without | bbc_demo.py:499 | deleting a character leaves no occurrence of it and never lengthens the string |
| Text.DeleteCharIsWithout | bbc_demo.py:499 | `replace(c, "")` deletes every `c` and keeps the other characters in order |
| Text.TrimLeft | bbc_demo.py:230 | `lstrip` cuts only white space from the front and leaves no leading white space |
| Text.TrimRight | bbc_demo.py:230 | `rstrip` cuts only white space from the back and leaves no trailing white space |
| Text.Strip | bbc_demo.py:230 | `strip` gives a slice of the line with only white space around it and none at its ends |
| Text.IsAscii | bbc_demo.py:455 | the texts Python 2's `str()` can encode with its default ASCII codec: every character below 128 |
| Text.Lower | bbc_demo.py:289 | lower-casing keeps the length and maps each byte through ASCII lower-casing |
| Text.LowerIdempotent | bbc_demo.py:289 | lower-casing twice is lower-casing once |
| Grammar.AnyContained | bbc_demo.py:293-294 | true exactly when some keyword is a substring of the text |
| Grammar.AllContained | bbc_demo.py:298 | true exactly when every keyword of the tuple is a substring of the text |
| Grammar.SomeTupleContained | bbc_demo.py:296-298 | true exactly when some keyword tuple is wholly contained in the text |
| Grammar.CheckGrammar | bbc_demo.py:288-303 | a grammar matches exactly when the lower-cased text holds one of its keywords or all keywords of one of its tuples; an unknown grammar never matches |
| Grammar.CheckGrammarIgnoresCase | bbc_demo.py:288-289 | a text and its lower-cased form match the same grammars |
| Grammar.ParseLine | bbc_demo.py:230-234 | a grammar line fails exactly when the stripped line has no `.*`; otherwise the key has no tab and there is at least one alternative, none holding `\|` |
| Grammar.ParseLineContent | bbc_demo.py:230-234 | a parsed line's key is the stripped line before its first `.*` with every tab deleted, and its alternatives joined by `\|` give back the text after that `.*` (up to any later `.*`) without its first and last character |
| Grammar.AddAlternative | bbc_demo.py:236-245 | the definition of one turn of the alternatives loop: an alternative holding `*` is split at `*` and appended to `grammars_mult[key]`, any other to `grammars[key]`; its properties are in AddAlternativeAppends |
| Grammar.AddAlternatives | bbc_demo.py:235-245 | the definition of the alternatives loop of one line, in order; its properties are in AddAlternativesAppendsKeywords and AddAlternativesAppendsTuples |
| Grammar.LoadLines | bbc_demo.py:227-245 | the definition of the grammar-file loop: lines in order, stopping with the flag false at the first line without `.*` (IndexError); its properties are in LoadLinesOk, LoadKeepsKeywordOrder, LoadKeepsTupleOrder and LoadFromEmpty |
| Grammar.AddAlternativeAppends | bbc_demo.py:235-245 | one alternative is appended to the keywords or to the tuples of its own key, and nothing else changes |
| Grammar.AddAlternativesAppendsKeywords | bbc_demo.py:235-245 | a line's keywords are appended, in order, to its own key only |
| Grammar.AddAlternativesAppendsTuples | bbc_demo.py:235-245 | a line's keyword tuples are appended, in order, to its own key only |
| Grammar.LoadKeepsKeywordOrder | bbc_demo.py:227-245 | after loading, every name holds its old keywords followed by those the file gives it, in file order |
| Grammar.LoadKeepsTupleOrder | bbc_demo.py:227-245 | the same for the keyword tuples |
| Grammar.LoadLinesOk | bbc_demo.py:227-245 | loading ends without IndexError exactly when every line holds `.*` after stripping |
| Grammar.LoadFromEmpty | bbc_demo.py:227-245 | from empty dictionaries, a name is present exactly when the file gives it alternatives, and holds exactly those, in file order |
| Dialogue.ActionValueOf | bbc_demo.py:112-118 | every action is sent as a one-element tuple except `getSayNext`, which is a bare string |
| Dialogue.Fresh | bbc_demo.py:40-101 | the controller starts with no expected grammar, empty slots, no planned reply, the agent marked speaking, the tokenizer on and nothing sent |
| Dialogue.FirstMatch | bbc_demo.py:400-406 | the detected g1 is the first non-empty alternative that matches, or "" when none does |
| Dialogue.AnyMatch | bbc_demo.py:400-404 | true exactly when some alternative (empty or not) matches |
| Dialogue.Detect | bbc_demo.py:398-419 | detection fails (KeyError) exactly when no g1 is detected yet and no grammar was ever expected |
| Dialogue.Directive | bbc_demo.py:470-495 | `TKML_waitForInput` holds exactly when g1 is set, or sayThis is empty and g2 is set; `TKML_stop` exactly when sayThis and both slots are empty |
| Dialogue.Respond | bbc_demo.py:576-610 | `respond` changes only the mailbox fields |
| Dialogue.PrepareMovement | bbc_demo.py:557-568 | the command is the word `move` or `getDuration`, the gesture name, and `delay=` with the delay when one is given |
| Dialogue.Gcr | bbc_demo.py:365-449 | the definition of `get_chatbot_reply` on the TalkML interface: an action is sent as it is; a text is detected and then selected on; a KeyError in detection ends the controller; its properties are in GcrFrame, GcrSaid, SpeculativeFetch and TimeoutRequest |
| Dialogue.Select | bbc_demo.py:421-434 | the definition of the request choice after detection: a `heard` for a new g1 when no reply is planned (kept, not returned), else on the timeout path a `heard` for g2 or a `nomatch`; its properties are in SelectFrame and TimeoutRequest |
| Dialogue.SayText | bbc_demo.py:455 | `str()` of sayThis: a null sayThis becomes the text "None" |
| Dialogue.Encodable | bbc_demo.py:455 | `str()` of sayThis succeeds exactly when it is null or ASCII; otherwise UnicodeEncodeError is raised |
| Dialogue.Parse | bbc_demo.py:451-535 | the definition of `parse_chatbot_reply`, including the UnicodeEncodeError of a non-ASCII sayThis after the state is set to WAIT2TALK; its properties are in ParseOk, ParseNotOk and ParseSendsNothing |
| Dialogue.Render | bbc_demo.py:506-522 | the definition of the word loop of a turn: plain words are buffered after a space, a gesture or emotion flushes the buffer, an unknown gesture raises KeyError; its properties are in RenderIsQuiet, RenderKeepsText, RenderAtTag, RenderDropsTag and RenderPlain |
| Dialogue.TurnWords | bbc_demo.py:499-507 | the words of a turn: sayThis with every `/` deleted, split at single spaces |
| Dialogue.SpeakTurn | bbc_demo.py:497-527 | the definition of a spoken turn: a toggle, the rendered events, and a second toggle unless rendering raised; its properties are in SpeakTurnFields, SpeakTurnBracket and TurnPausesTokenizer |
| Dialogue.Toggle | bbc_demo.py:546-555 | the definition of `toggle_tokenizer`: "pause" when on, "resume" when off, then the state flips; its properties are in ToggleAround and ToggleKeepsSwitchInStep |
| Dialogue.Process | bbc_demo.py:631-633 | the definition of processing pending text: `get_chatbot_reply` of the mailbox text, then the text marked processed; its properties are in ProcessFacts |
| Dialogue.Sleep | bbc_demo.py:634 | the definition of a loop sleep: `dt` ms pass and the loop position is recorded; a crashed controller stays as it is |
| Dialogue.TalkCheck | bbc_demo.py:626-640 | the definition of the WAIT2TALK loop test and what follows it; its properties are in TalkCheckFacts and TalkDetectionSendsNothing |
| Dialogue.HearCheck | bbc_demo.py:641-662 | the definition of the WAIT2HEAR loop test and what follows it; its properties are in HearCheckFacts, NoInputWaits and NoInputDeadline |
| Dialogue.ListenCheck | bbc_demo.py:658-693 | the definition of the HEARING loop test and its timeout branch; its properties are in ListenCheckFacts, ListenTimeout and NoMatchDeadline |
| Dialogue.AfterListenSleep | bbc_demo.py:673-686 | the definition of the HEARING loop body after its sleep; its properties are in AfterListenFacts, TimerRestartsWhileSpeaking and CommitAfterSilence |
| Dialogue.Commit | bbc_demo.py:677-686 | the definition of the heard commit: the text dropped, the planned reply parsed, then it and the slots cleared in state HEARD; its properties are in CommitAfterSilence |
| Dialogue.Step | bbc_demo.py:624-694 | the definition of one step of `updateModule`, up to its next sleep or its end; its properties are in StepInvariant |
| DialogueProps.Requests | bbc_demo.py:365-449 | counts the backend requests of a run of events; zero exactly when there is none |
| DialogueProps.Toggles | bbc_demo.py:546-555 | counts the tokenizer commands of a run of events; zero exactly when there is none |
| DialogueProps.CountsAppend | bbc_demo.py:365-449 | the request and tokenizer counts of two runs add up |
| DialogueProps.SendsCompose | bbc_demo.py:624-694 | two stretches of a run send at most the sum of what each sends, and their events follow each other |
| DialogueProps.SpokenAppend | bbc_demo.py:507-522 | the spoken text of two runs of events is their concatenation |
| DialogueProps.RenderIsQuiet | bbc_demo.py:507-522 | rendering a turn never sends a request and never writes to the tokenizer |
| DialogueProps.RenderKeepsText | bbc_demo.py:507-522 | a turn that renders to the end speaks exactly its plain words, each after one space, in order |
| DialogueProps.RenderAtTag | bbc_demo.py:510-520 | at a gesture or an emotion the buffer is spoken, the move or emotion follows, and the rest renders from an empty buffer |
| DialogueProps.RenderDropsTag | bbc_demo.py:508-520 | a tagged word that is neither a gesture nor an emotion is dropped |
| DialogueProps.RenderPlain | bbc_demo.py:507-522 | a run of plain words is spoken in one piece at the end of the turn |
| DialogueProps.PlainTextTurn | bbc_demo.py:497-522 | a sayThis without tags and without `/` is spoken as it is, after one space, in one `say`, and nothing else happens |
| DialogueProps.SpeakTurnFields | bbc_demo.py:497-527 | a spoken turn changes only the trace, the tokenizer state and the phase |
| DialogueProps.SpeakTurnBracket | bbc_demo.py:504-527 | a turn emits a tokenizer command, the rendered events, and (unless an unknown gesture raised) a second tokenizer command that restores the tokenizer state; no request is sent |
| DialogueProps.ToggleAround | bbc_demo.py:546-555 | two toggles around quiet events put the switch back where it was |
| DialogueProps.ToggleThenCrash | bbc_demo.py:504-514 | a turn that raises after the first toggle leaves the tokenizer paused |
| DialogueProps.ParseOk | bbc_demo.py:451-530 | on a 200 reply whose sayThis is not ASCII: the state is WAIT2TALK and the controller ends (UnicodeEncodeError), nothing else changes; on any other 200 reply: the expected grammars are g1 and g2 (null as ""), both directive flags follow the eight-way table, the turn is spoken exactly when sayThis is neither empty nor "None", no request is sent and no other field changes |
| DialogueProps.ParseNotOk | bbc_demo.py:531-535 | a missing or non-200 reply changes nothing |
| DialogueProps.ParseSendsNothing | bbc_demo.py:451-535 | parsing never sends a request, keeps slots, planned reply and mailbox, and keeps the directive consistent |
| DialogueProps.DetectSlots | bbc_demo.py:398-419 | a detected g1 is never re-evaluated; otherwise g1 is detected exactly when a non-empty expected alternative matches, is the first such one, and clears g2; g2 is looked up only while g1 stays empty |
| DialogueProps.FirstMatchFinds | bbc_demo.py:400-406 | the g1 loop detects something exactly when some non-empty alternative matches |
| DialogueProps.FreshInv | bbc_demo.py:40-101 | the controller starts in a state that satisfies the session invariant |
| DialogueProps.GcrSaid | bbc_demo.py:398-434 | once detection succeeds, `get_chatbot_reply` on a text is the request selection on the detected slots |
| DialogueProps.SelectFrame | bbc_demo.py:422-434 | request selection sends at most one request, touches only the planned reply and the trace, and fills the planned reply exactly when it was empty and g1 is detected |
| DialogueProps.GcrFrame | bbc_demo.py:365-449 | `get_chatbot_reply` sends at most one request, changes only slots, planned reply, trace and (on KeyError) phase, never replaces a planned reply, and keeps the invariant |
| DialogueProps.SpeculativeFetch | bbc_demo.py:422-426 | while a reply is planned, processing a text sends nothing; with none planned, a detected g1 is fetched once with a `heard` request and its answer is kept, not returned |
| DialogueProps.TimeoutRequest | bbc_demo.py:422-434 | the timeout path sends exactly one request: the speculative `heard` for a new g1, else `heard` for g2, else `nomatch` |
| DialogueProps.RespondKeepsInv | bbc_demo.py:576-610 | `respond` keeps the invariant and sends nothing |
| DialogueProps.ProcessFacts | bbc_demo.py:631-633 | processing the mailbox text sends at most one request and keeps the invariant |
| DialogueProps.ParseAfterFetch | bbc_demo.py:636-640 | a fetch followed by parsing its answer sends at most one request and returns with the invariant |
| DialogueProps.TalkCheckFacts | bbc_demo.py:626-640 | the WAIT2TALK loop test keeps the invariant and sends at most one request |
| DialogueProps.NothingExpectedDetectsNothing | bbc_demo.py:398-405 | while no g1 is expected, processing a text detects no g1 |
| DialogueProps.ListenCheckFacts | bbc_demo.py:658-693 | the HEARING loop test keeps the invariant and sends at most one request |
| DialogueProps.HearCheckFacts | bbc_demo.py:645-662 | the WAIT2HEAR loop test keeps the invariant and sends at most one request |
| DialogueProps.AfterListenFacts | bbc_demo.py:673-686 | the rest of the HEARING loop body sends nothing and keeps the invariant |
| DialogueProps.StartFacts | bbc_demo.py:626-662 | the start of `updateModule` keeps the invariant and sends at most one request |
| DialogueProps.ListeningFacts | bbc_demo.py:658-693 | a HEARING pass keeps the invariant and sends at most one request |
| DialogueProps.StepInvariant | bbc_demo.py:624-694 | every step of `updateModule` keeps the session invariant, only appends to what was sent, and sends at most one request |
| DialogueProps.TimerRestartsWhileSpeaking | bbc_demo.py:668-675 | while the user speaks, the HEARING loop restarts its timer and keeps listening |
| DialogueProps.CommitAfterSilence | bbc_demo.py:677-686 | after more than `heard` ms of silence with g1 detected, the planned reply is parsed without a request and cleared with the slots and the text, in state HEARD |
| DialogueProps.TimeoutSendsOne | bbc_demo.py:690 | the timeout fetch of the mailbox text sends exactly one request |
| DialogueProps.ListenTimeout | bbc_demo.py:688-693 | the HEARING timeout sends one request first and clears the text and the slots |
| DialogueProps.NoMatchDeadline | bbc_demo.py:658-693 | after `no_match` ms in HEARING with no g1 and the user silent, exactly one request is sent and the text and slots are cleared |
| DialogueProps.NoInputWaits | bbc_demo.py:645-651 | before the `no_input` deadline, with nobody speaking, WAIT2HEAR only sleeps again |
| DialogueProps.NoInputDeadline | bbc_demo.py:653-656 | at the `no_input` deadline a `noinput` request without grammar is sent, and nothing else |
| DialogueProps.TalkDetectionSendsNothing | bbc_demo.py:636-640 | text detected while the agent talked is re-sent after the turn but sends nothing, leaving script and planned reply as they were |
| DialogueProps.TimeoutLeavesPlannedReply | bbc_demo.py:688-693 | a g1 first detected on the timeout path is fetched and its answer kept as the planned reply while the slots are cleared |
| DialogueController.Controller.constructor | bbc_demo.py:40-101 | the object starts as the initial session with empty grammar dictionaries |
| DialogueController.Controller.LoadGrammar | bbc_demo.py:227-245 | the grammar-file loop leaves the dictionaries and the success flag of the grammar-loading function |
| DialogueController.Controller.AddLine | bbc_demo.py:235-245 | the alternatives loop appends a line's alternatives as specified |
| DialogueController.Controller.ScanG1 | bbc_demo.py:400-406 | the g1 loop leaves the first matching alternative, clearing g2 on any match |
| DialogueController.Controller.ScanG2 | bbc_demo.py:410-419 | the g2 loop leaves the first matching alternative |
| DialogueController.Controller.DetectGrammar | bbc_demo.py:398-419 | detection updates the slots as specified, or records the KeyError |
| DialogueController.Controller.GetChatbotReply | bbc_demo.py:365-449 | the fields and the returned reply are those of the `get_chatbot_reply` function |
| DialogueController.Controller.SendForText | bbc_demo.py:422-434 | the request sent and the reply kept or returned are those of request selection |
| DialogueController.Controller.ToggleTokenizer | bbc_demo.py:546-555 | the command written and the flipped state are those of the toggle function |
| DialogueController.Controller.RenderWords | bbc_demo.py:507-522 | the word loop appends exactly the rendered events, and crashes exactly on an unknown gesture |
| DialogueController.Controller.SpeakTurn | bbc_demo.py:497-527 | the turn leaves the fields as the spoken-turn function |
| DialogueController.Controller.SetDirective | bbc_demo.py:470-495 | the eight-way branch sets the two flags as the directive function |
| DialogueController.Controller.ParseChatbotReply | bbc_demo.py:451-535 | the fields are those of the parse function; true exactly for a 200 reply parsed through to its return, so false when a non-ASCII sayThis or an unknown gesture raised and ended the controller |
| DialogueController.Controller.Respond | bbc_demo.py:576-610 | the mailbox fields and the reply bottle are those of the respond function |
| DialogueController.Controller.Sleep | bbc_demo.py:634 | the clock advances by the sleep and the loop position is recorded |
| DialogueController.Controller.Process | bbc_demo.py:631-633 | pending text is processed once, as the process function |
| DialogueController.Controller.TalkCheck | bbc_demo.py:630-640 | the WAIT2TALK test leaves the fields as its function |
| DialogueController.Controller.ListenCheck | bbc_demo.py:661-693 | the HEARING test leaves the fields as its function |
| DialogueController.Controller.NoMatchFetch | bbc_demo.py:688-693 | the timeout fetch, the clearing of text and slots, and the parse leave the fields as the timeout branch of the HEARING test |
| DialogueController.Controller.HearCheck | bbc_demo.py:645-662 | the WAIT2HEAR test leaves the fields as its function |
| DialogueController.Controller.AfterListenSleep | bbc_demo.py:673-686 | the timer restart and the heard commit leave the fields as their function |
| DialogueController.Controller.Commit | bbc_demo.py:682-686 | the heard commit leaves the fields as its function |
| DialogueController.Controller.Step | bbc_demo.py:624-694 | one step of `updateModule` leaves the fields as the step function, so the step lemmas hold of the object |
| BodyControl.CheckAdd | icubBodyControl.py:135-139 | a dictionary gains the key if it lacked it, keeps every existing value, and a non-dictionary is left alone |
| BodyControl.CheckAddTwice | icubBodyControl.py:135-139 | adding the same key twice is adding it once |
| BodyControl.Shift | icubBodyControl.py:157-160 | shifted positions add the offset to each joint value, and have the same length |
| BodyControl.CtpMessage | icubBodyControl.py:151-163 | the message has one command per duration |
| BodyControl.CtpEntry | icubBodyControl.py:154-162 | command n of a message: it ends at the sum of the first n + 1 durations, lasts duration n, and holds position n shifted by the offset |
| BodyControl.ConstructCtpMessage | icubBodyControl.py:151-163 | the loop builds the message exactly when it is defined (a position for each duration, offsets of matching length), with running-total end times |
| BodyControl.CtpTimesAccumulate | icubBodyControl.py:154-156 | each command ends one duration after the previous one |
| BodyControl.CtpLastTime | icubBodyControl.py:154-163 | the last command ends at the total of the durations |
| BodyControl.CtpTimesOrdered | icubBodyControl.py:154-163 | with durations that are not negative, end times never decrease |
| BodyControl.ArgsList | icubBodyControl.py:248-252 | the options are the request's items after the gesture name, as strings |
| BodyControl.FirstDelay | icubBodyControl.py:254-256 | the delay is the first option holding `delay=`, with `delay=` removed; None exactly when no option holds it |
| BodyControl.ParseArgs | icubBodyControl.py:246-256 | mirroring is on exactly when some option is `mirror` |
| BodyControl.ArmParts | icubBodyControl.py:264-269 | among the four parts, exactly the two arms contain "arm" |
| BodyControl.MirrorName | icubBodyControl.py:264-269 | the part a part's commands go to: with mirroring the two arms swap and the other parts stay; its properties are in MirrorTwice |
| BodyControl.Offset | icubBodyControl.py:271-277 | the offset of a part: the current head position for the head, the current position for a part without positions, otherwise none |
| BodyControl.Delayed | icubBodyControl.py:279-281 | with a delay, the part's first duration becomes the delay; without one the part is unchanged |
| BodyControl.Convert | icubBodyControl.py:260-285 | the definition of the loop over the parts of `do_action`; its properties are in ConvertOk, ConvertStoreKeys, ConvertStore, ConvertKeys, ConvertKeeps and ConvertMessages |
| BodyControl.MirrorTwice | icubBodyControl.py:264-269 | mirroring swaps the two arms, keeps head and torso, and undoes itself |
| BodyControl.ConvertOk | icubBodyControl.py:260-285 | converting a gesture raises exactly when one of its parts does not convert |
| BodyControl.ConvertStoreKeys | icubBodyControl.py:260-285 | conversion keeps the parts of the stored gesture |
| BodyControl.ConvertStore | icubBodyControl.py:279-281 | each stored part is kept or gets the delay as its first duration; without an exception every converted part has it |
| BodyControl.ConvertKeys | icubBodyControl.py:264-285 | a conversion adds one message list per part the gesture has, under the part's mirrored name |
| BodyControl.ConvertKeeps | icubBodyControl.py:283-285 | lists under names no part is sent to are left alone |
| BodyControl.ConvertMessages | icubBodyControl.py:260-285 | each part's commands are sent under its mirrored name, as that part's message |
| BodyControl.Max | icubBodyControl.py:290 | the maximum is one of the values and no value exceeds it |
| BodyControl.LastTimes | icubBodyControl.py:290 | the end times collected are at most one per part |
| BodyControl.LastTimesSpec | icubBodyControl.py:290 | the collection fails exactly on an empty message list, is empty exactly when no part has messages, and otherwise holds exactly each part's last end time |
| BodyControl.MaxEnd | icubBodyControl.py:290 | the latest end time over the message lists: none when a list is empty (IndexError) or there is no list (ValueError); its properties are in LongestPart |
| BodyControl.PartEndTime | icubBodyControl.py:279-290 | a part's last command ends at the total of its stored durations |
| BodyControl.LongestPart | icubBodyControl.py:287-290 | the latest end time is the total duration of the longest converted part |
| BodyControl.DurationIsLongestPart | icubBodyControl.py:238-290 | `getDuration` answers the total duration of the gesture's longest part, as stored after the call |
| BodyControl.MoveSendsEachPart | icubBodyControl.py:238-290 | `move` sends each part's commands under its mirrored name, and nothing else |
| BodyControl.ConvertNoDelay | icubBodyControl.py:260-285 | converting without a delay leaves the stored gesture unchanged |
| BodyControl.NoDelayKeepsStore | icubBodyControl.py:238-290 | `do_action` without a delay leaves the gesture store unchanged |
| BodyControl.ConvertWithDelay | icubBodyControl.py:279-281 | with a delay, at most each part's first duration changes, and without an exception each part starts with the delay |
| BodyControl.DelayIsStored | icubBodyControl.py:238-290 | `do_action` with a delay changes only its own gesture, and in it at most the first durations, which become the delay when nothing raised |
| BodyControl.Run | icubBodyControl.py:238-290 | the definition of `do_action` once its arguments are parsed; its properties are in DurationIsLongestPart, MoveSendsEachPart, NoDelayKeepsStore and DelayIsStored |
| BodyControl.Act | icubBodyControl.py:238-290 | the definition of `do_action`: the arguments parsed, then Run |
| BodyControl.BodyController.constructor | icubBodyControl.py:165-196 | the server starts with the loaded gestures and names and nothing sent |
| BodyControl.BodyController.ConvertParts | icubBodyControl.py:260-285 | the in-place loop over the parts leaves the store and the messages of the conversion function |
| BodyControl.BodyController.DoAction | icubBodyControl.py:238-290 | the store, the outcome and what is sent are those of `do_action`'s function |
| BodyControl.BodyController.Perform | icubBodyControl.py:214-224 | `move` and `getDuration` on a known gesture reply, store and send as `do_action` says |
| BodyControl.BodyController.Respond | icubBodyControl.py:204-236 | heartbeat and EXIT are acked; move and getDuration need a known gesture name; anything else is not recognized; the names never change |
| SentenceTokenizer.PauseAfter | sentence_tokenizer.py:200-223 | the pause switch after an RPC request: set by "pause", cleared by "resume", kept by anything else |
| SentenceTokenizer.SpokenCountAppend | sentence_tokenizer.py:146-151 | writing one more bottle raises the sentence count exactly when it is a sentence |
| SentenceTokenizer.Tokenizer.constructor | sentence_tokenizer.py:30-59 | the tokenizer starts unpaused, with no data, no sentences and nothing written |
| SentenceTokenizer.Tokenizer.Respond | sentence_tokenizer.py:200-223 | "pause" sets the switch, "resume" clears it, anything else keeps it; the reply acks the four known words |
| SentenceTokenizer.Tokenizer.Callback | sentence_tokenizer.py:112-166 | no data announces speech start or stop; data while paused does nothing; otherwise the joined chunks are recognized into a counted sentence or handed on as "classify"; a recognized sentence that is not ASCII is counted but not written, as `str()` raises; the count of recognitions is the sentences written plus those that raised |
| SpeechToText.Padded | deepSpeechToText.py:139-140 | the padded audio has even length, keeps the original as a prefix, and adds at most one zero byte |
| SpeechToText.PaddedTwice | deepSpeechToText.py:139-140 | padding an already padded recording changes nothing |
| SpeechToText.Transcript | deepSpeechToText.py:142-152 | the bottle written for one recording: a "spoken" bottle with the transcript when it is not empty, else nothing |
| SpeechToText.Transcripts | deepSpeechToText.py:136-156 | the bottles written for recordings transcribed in order: each recording's bottle, in order; its properties are in TranscriptsAppend and Transcriber.UpdateModule |
| SpeechToText.TranscriptsAppend | deepSpeechToText.py:142-152 | transcribing one more recording appends its bottle at the end |
| SpeechToText.Receive | deepSpeechToText.py:98-125 | the queue only grows at its end, by one recording exactly for a three-item "classify", and the reply acks exactly the valid requests |
| SpeechToText.Transcriber.constructor | deepSpeechToText.py:45-46 | the transcriber starts with an empty queue and the cursor at its start |
| SpeechToText.Transcriber.Respond | deepSpeechToText.py:98-125 | the queue and reply are those of the receive function, and the cursor invariant holds |
| SpeechToText.Transcriber.UpdateModule | deepSpeechToText.py:135-166 | a waiting entry is padded in place, its transcript appended, and the cursor advanced; the output is always the transcripts of the entries before the cursor, in order |
| Integration.ToggleKeepsSwitchInStep | bbc_demo.py:546-555 | each toggle, delivered, keeps the tokenizer's pause switch the negation of the controller's `tokenizer_state` |
| Integration.TurnPausesTokenizer | bbc_demo.py:504-526 | over a spoken turn the tokenizer is paused for exactly the rendered events and resumed after them |
| Integration.DelayTextReadBack | icubBodyControl.py:254 | the delay text `prepare_movement` writes is read back unchanged |
| Integration.PreparedMoveParses | bbc_demo.py:557-568 | a command built by `prepare_movement` reaches `do_action` with its name and delay, without mirroring |
| Integration.ClassifyIsQueued | sentence_tokenizer.py:157-163 | the tokenizer's "classify" bottle is queued by the transcriber as the recording it carries |
| Integration.SpeechReachesController | bbc_demo.py:576-610 | a "spoken" bottle leaves its sentence as unprocessed text with the agent silent; a "speaking" bottle sets whether the agent speaks |

## Left out

- YARP ports, RPC plumbing, threads and `time.sleep` durations. The controller reads an abstract
  clock that advances by `dt` at each of its loop sleeps. `tokenizer_delay` and the gesture sleeps
  (`duration_action_dict`) are not modelled; `duration_action_dict` is assumed to have the same
  names as `prepared_action_dict`.
- `configure` of every module, apart from the controller's grammar-file loop. File reading,
  uploading the TalkML script, the `start` request and the filling of `prepared_action_dict` are
  not modelled; the prepared moves are given to the controller's constructor.
- `load_gestures` and its XML parsing: the gesture store is given to the body-control
  constructor. `getCurrPosition` is the input `current`, and Python's `float` on the delay is the
  input `toFloat`.
- Python dictionary iteration order. The parts of a gesture are taken in the fixed order of
  `self.parts`. `send_ctp_messages` is recorded as one appended message map per `move`, not as
  port writes in order.
- The Rasa interface, the testing chat interfaces, the hotword and echo threads and
  `trigger_echo`, and `close`/`interruptModule`.
- The speech synthesiser and the emotion interface are trace events. The Google recognizer is
  the `Recognition` input, and DeepSpeech is the `stt` input function (None where it raises).
- `time_total` and its timing statistics in the sentence tokenizer.
- The `try` around the transcriber's queue append: in the model the append cannot fail.
- `TKML_stop` is recorded, but nothing reads it.
- `grammar_dict` starts as an empty dictionary. Reading it before any reply raises KeyError, which
  the model records as the `Crashed` phase; a crashed controller does nothing more.
- `respond` of the controller does not return after "heartbeat" or "speaking". Both fall through
  to the final `else` and are answered with an ack, a nack and "Command not recognized". The model
  keeps this.
- `all(v == 0.0 for v in positions)` compares lists with 0.0. It holds only for a part without
  positions, and the model keeps this.
- The delay written into a stored gesture persists in the store, as in the source.
- A planned reply fetched on the `no_match` timeout path outlives its turn, as in the source
  (`DialogueProps.TimeoutLeavesPlannedReply`).
- Requests to the controller's `respond` are applied only between steps. In the source they run
  on the RPC thread while `updateModule` runs. A sentence that arrives while `get_chatbot_reply`
  waits for its HTTP answer is then lost: `processed_text = True` (bbc_demo.py:633 and 666)
  overwrites the flag `respond` has just cleared, so that sentence is never processed. The model
  cannot show this lost update.
- The prints of `.json()` of a reply (bbc_demo.py:426 and 434) raise ValueError when the backend
  answers with a body that is not JSON, whatever the status. The model's `Reply` is either
  `NotOk` or a decoded 200 reply, so it does not show this exception.
- Dialogue.Parse: the print of the expected grammars (bbc_demo.py:464) can raise
  UnicodeEncodeError for a non-ASCII g1 or g2, depending on the console's encoding. The model
  assumes it does not; only the `str()` of sayThis (bbc_demo.py:455) raises.
- SentenceTokenizer.Tokenizer.Callback: after `str()` of a non-ASCII sentence raises
  (sentence_tokenizer.py:151), the exception leaves `tokenize` and `updateModule`
  (sentence_tokenizer.py:168-170 and 233-237). What YARP does then is not modelled, and the
  model goes on accepting callbacks. The `print` of the sentence (sentence_tokenizer.py:147)
  may raise first, depending on the console's encoding; the outcome is the same, a sentence
  counted and not written.
- BodyControl.RunMatchesCommand: Dafny proves it from the definitions alone; it is kept as a
  statement of how `move` and `getDuration` differ.
- SentenceTokenizer.PauseAfterIdempotent: Dafny proves it from the definition alone.
