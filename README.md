# hello_chainlit agents: the deterministic parts, in Dafny

The repository is a set of small chat agents built on a hosted-model SDK.
Almost all of it configures clients and hands text to a remote model. This
project models the parts that compute something themselves, and proves what
they promise:

- **Client deal agent** (`creative_agent/app.py`).
  - `detect_mood` is a first-match-wins chain of keyword tests that sorts a
    client message into `confused`, `urgent`, `serious` or `friendly`.
  - `estimate_delivery` formats a delivery estimate.
  - Module `CreativeAgent`.
- **Role-based instructions** (`dynamic_instructions/app.py`).
  - `generate_instructions` turns a `UserContext(name, role)` into the
    agent's instruction text.
  - It matches the role exactly; every other role gets the guest text.
  - Module `DynamicInstructions`.
- **Shop bot** (`firstagent/src/hello_chainlit/shopbot.py`).
  - The product catalogue is rendered as text, and the instruction template
    is filled with the shop's details.
  - Each chat session keeps an append-only history: it is reset when the
    chat starts, and every message adds the user turn, runs the agent on the
    history, then adds the assistant turn.
  - Module `ShopBot`; the session is the class `ShopBot.ChatSession`.
- **Calendar tool** (`context/app.py`). `get_calendar_reminder` renders the
  five fields of a `CalendarReminder` as five labelled lines. Module
  `CalendarContext`.
- **Streaming poem runner** (`streaming/app.py`).
  - `run_poem_stream` walks the event stream.
  - It prints the delta of every raw response event whose delta is non-empty,
    in arrival order, between a header and a completion line.
  - Module `Streaming`; the loop is the method `Streaming.RunPoemStream`.

Shared pieces:

- Module `Strings` holds substring search, ASCII lower-casing, `split`/`join`,
  character counting and decimal rendering of integers, with their lemmas.
- Module `Wrappers` holds `Option`.

Text is `seq<char>` with Dafny's Unicode characters, so the emoji and the
typographic apostrophe of the source appear as single characters.

How each piece is modelled:

- Functions with no state (`detect_mood`, `estimate_delivery`,
  `generate_instructions`, `product_list_text`, `agent_instructions`,
  `get_calendar_reminder`) are Dafny functions.
- Each function has a partner it is proved against:
  - `estimate_delivery` and `get_calendar_reminder` have a reader, proved to
    invert them.
  - `detect_mood` has a rule-table interpreter.
  - `generate_instructions` has a role table.
  - `product_list_text` is read back with `split`.
- The chat history is a `seq` field of a class, and the two event handlers
  are methods that reassign it. The method `Converse` starts a chat and
  handles a sequence of messages; its contract ties the session's history to
  `Replay`, a function giving the history after those messages, whose
  properties are proved as lemmas.
- The streaming loop is a method with a loop invariant. It is proved
  against `Deltas`, the filtered sequence of printed deltas.

## Model

| member | source | states |
|---|---|---|
| CreativeAgent.DetectMood | creative_agent/app.py:36-46 | `detect_mood`: the three keyword rules tried in order, `friendly` when none fires; its properties are the rows below |
| CreativeAgent.QuestionMarkWins | creative_agent/app.py:38-40 | any message containing `?` is `confused`, whatever other keywords it holds |
| CreativeAgent.NotSureWins | creative_agent/app.py:38-40 | any message containing the exact text `not sure` is `confused` |
| CreativeAgent.ConfusedInAnyCase | creative_agent/app.py:38-40 | `confused` written in any mix of letter cases makes the message `confused` |
| CreativeAgent.NotSureIsCaseSensitive | creative_agent/app.py:38-40 | `not sure` is tested on the message as typed: `"Not sure"` is `friendly`, though its lower-cased form is `confused` |
| CreativeAgent.UrgentInAnyCase | creative_agent/app.py:38-42 | when the first rule does not fire, `urgent`, `asap` or `quick` in any letter case makes the message `urgent` |
| CreativeAgent.CapitalAsapIsUrgent | creative_agent/app.py:41-42 | `ASAP` in capitals makes a message with no confusion keyword `urgent` |
| CreativeAgent.SeriousOnlyAfterEarlierRules | creative_agent/app.py:39-44 | the result is `serious` exactly when neither earlier rule fires and the lowered message holds `cost`, `price` or `serious` |
| CreativeAgent.FriendlyWhenNoKeyword | creative_agent/app.py:39-46 | the label is always one of the four names, and is `friendly` exactly when no rule fires |
| CreativeAgent.DetectMoodIsFirstMatch | creative_agent/app.py:38-46 | the if/elif chain equals the first rule, in priority order, of a rule table whose keywords occur in the message as typed or lowered |
| CreativeAgent.EstimateDelivery | creative_agent/app.py:30-32 | `estimate_delivery`: the estimate sentence for a day count; proved invertible by the two rows below |
| CreativeAgent.ReadEstimateDelivery | creative_agent/app.py:30-32 | reading the estimate text back gives the number of days: the text is `"Expected delivery time: "`, `str(days)` and `" working days."`, with negatives written with a minus sign |
| CreativeAgent.EstimateDeliveryInjective | creative_agent/app.py:30-32 | different day counts give different texts |
| CreativeAgent.QueryConfusedIsConfused | creative_agent/app.py:69 | the first sample query is `confused` |
| CreativeAgent.QueryUrgentIsUrgent | creative_agent/app.py:70 | the second sample query is `urgent` |
| CreativeAgent.QuerySeriousIsSerious | creative_agent/app.py:71 | the third sample query is `serious` |
| CreativeAgent.QueryFriendlyIsFriendly | creative_agent/app.py:72 | the fourth sample query is `friendly` |
| CreativeAgent.DetectMoodAnyCaseIgnoresCase | creative_agent/app.py:38-46 | the corrected classifier gives a message and its lower-cased form the same label |
| CreativeAgent.DetectMoodAnyCaseIsLoweredDetectMood | creative_agent/app.py:38-46 | the corrected classifier is the original applied to the lower-cased message |
| CreativeAgent.DetectMoodAnyCaseAgrees | creative_agent/app.py:38-46 | the corrected and the original classifier agree on every message unless it holds `not sure` only in some other letter case |
| CreativeAgent.NotSureAnyCase | creative_agent/app.py:39-40 | under the corrected classifier `"Not sure"` is `confused` |
| CreativeAgent.QueriesAnyCase | creative_agent/app.py:68-73 | the corrected classifier labels the four sample queries as the original does |
| DynamicInstructions.GenerateInstructions | dynamic_instructions/app.py:34-59 | `generate_instructions`: exact matches on the role, every other role treated as a guest; its properties are the rows below |
| DynamicInstructions.GenerateInstructionsIsTableLookup | dynamic_instructions/app.py:34-59 | the instruction text is the greeting, the name, `". "` and the brief of the role's table entry; roles outside the table get the guest entry |
| DynamicInstructions.AgentIsIgnored | dynamic_instructions/app.py:34-35 | the text does not depend on the `agent` argument |
| DynamicInstructions.RenderShape | dynamic_instructions/app.py:38-58 | every rendered text starts with its greeting, the name and `". "`, and contains every part of its brief |
| DynamicInstructions.AdminInstructions | dynamic_instructions/app.py:37-41 | role `admin` starts `"You are assisting Admin " + name + ". "` and asks for technical answers in a formal tone |
| DynamicInstructions.RegularPatientInstructions | dynamic_instructions/app.py:42-47 | role `patient_regular` starts `"You are assisting Patient " + name + ". "` and is about regular daily medicines |
| DynamicInstructions.HeavyPatientInstructions | dynamic_instructions/app.py:48-54 | role `patient_heavy` starts as a patient greeting and mentions following only the doctor's advice and possible side effects |
| DynamicInstructions.GuestInstructions | dynamic_instructions/app.py:55-59 | role `guest` starts `"You are assisting Guest " + name + ". "` and advises consulting a doctor |
| DynamicInstructions.UnknownRoleIsGuest | dynamic_instructions/app.py:37-59 | every role other than the three named ones yields exactly the guest text for the same name |
| DynamicInstructions.CapitalisedAdminIsGuest | dynamic_instructions/app.py:37-59 | role `Admin` is not `admin`: it gets the guest text |
| DynamicInstructions.NameIsInsertedVerbatim | dynamic_instructions/app.py:38-58 | for one role, the texts for two names differ only in the name, and the name occurs verbatim |
| ShopBot.ProductListText | firstagent/src/hello_chainlit/shopbot.py:27-29 | `product_list_text`: the product lines joined by line breaks; read back by the rows below |
| ShopBot.ProductLines | firstagent/src/hello_chainlit/shopbot.py:27-29 | one line per product, in catalogue order, each `"- " + name + " : " + price` |
| ShopBot.ProductLineIsSingleLine | firstagent/src/hello_chainlit/shopbot.py:28 | a product line has no line break when the name and the price have none |
| ShopBot.ProductListTextLines | firstagent/src/hello_chainlit/shopbot.py:27-29 | an empty catalogue renders as `""`; otherwise splitting the text at line breaks gives back exactly the product lines |
| ShopBot.ProductListTextNewlines | firstagent/src/hello_chainlit/shopbot.py:27 | for any non-empty catalogue, the text holds exactly n - 1 separating line breaks plus those inside the names and prices: there is no trailing newline |
| ShopBot.ProductListTextSeparators | firstagent/src/hello_chainlit/shopbot.py:27 | when no name or price holds a line break, n products are joined by exactly n - 1 line breaks |
| ShopBot.ProductListTextHasEveryProduct | firstagent/src/hello_chainlit/shopbot.py:27-29 | every product's line occurs in the text |
| ShopBot.ShopCatalogueLines | firstagent/src/hello_chainlit/shopbot.py:15-29 | the shop's three products render as three lines |
| ShopBot.AgentInstructions | firstagent/src/hello_chainlit/shopbot.py:53-68 | `agent_instructions`: the instruction template filled with the shop's fields and the product text |
| ShopBot.AgentInstructionsEmbedShop | firstagent/src/hello_chainlit/shopbot.py:53-60 | the instructions contain the shop name, address, timings, the whole product text and every product line verbatim |
| ShopBot.WelcomeMessage | firstagent/src/hello_chainlit/shopbot.py:81-83 | the greeting `handle_chat_start` sends |
| ShopBot.WelcomeNamesShop | firstagent/src/hello_chainlit/shopbot.py:81-83 | the welcome message names the shop |
| ShopBot.ReplayLength | firstagent/src/hello_chainlit/shopbot.py:87-101 | after n messages the history holds exactly 2n turns |
| ShopBot.ReplayExtends | firstagent/src/hello_chainlit/shopbot.py:87-101 | the history after the first messages is a prefix of the history after more: earlier turns never change or move |
| ShopBot.ReplayEntries | firstagent/src/hello_chainlit/shopbot.py:87-101 | turn 2i is the user's i-th message; turn 2i+1 is the agent's answer to the history up to and including that message |
| ShopBot.ReplayAlternates | firstagent/src/hello_chainlit/shopbot.py:87-101 | the history alternates user and assistant turns, starting with the user |
| ShopBot.ChatSession.constructor | firstagent/src/hello_chainlit/shopbot.py:78-80 | a new session starts with an empty history |
| ShopBot.ChatSession.HandleChatStart | firstagent/src/hello_chainlit/shopbot.py:78-83 | starting a chat resets the history to empty and returns the welcome message |
| ShopBot.ChatSession.HandleMessage | firstagent/src/hello_chainlit/shopbot.py:85-104 | the agent runs on the old history plus the user turn; when it answers, the new history is the old one plus the user turn and the assistant turn holding the reply; when it raises, the user turn stays unanswered; an alternating history stays alternating exactly when the agent answers |
| ShopBot.Converse | firstagent/src/hello_chainlit/shopbot.py:78-104 | a chat start followed by the messages, each answered, leaves exactly the replayed history in the session, and the i-th reply is the agent's answer to the history up to and including message i |
| CalendarContext.GetCalendarReminder | context/app.py:45-57 | `get_calendar_reminder`: the five labelled fields of the reminder in the run context; read back by the rows below |
| CalendarContext.GetCalendarReminderIsJoin | context/app.py:50-57 | the text is the five labelled lines joined by line breaks: title, date, time, location, notes, with no trailing newline |
| CalendarContext.GetCalendarReminderLines | context/app.py:51-57 | when no field holds a line break, splitting the text gives exactly the five labelled lines, in field order |
| CalendarContext.ReadGetCalendarReminder | context/app.py:45-57 | when no field holds a line break, reading the text back gives exactly the reminder: every field is inserted verbatim, in order, with no escaping |
| CalendarContext.GetReadReminder | context/app.py:45-57 | any text that reads as a reminder is exactly what the tool renders for that reminder |
| CalendarContext.GetCalendarReminderNewlines | context/app.py:51-57 | the text holds exactly four separating line breaks plus those inside the fields |
| Streaming.Qualifies | streaming/app.py:71-72 | an event is printed only when it is a raw response event with a present, non-empty delta |
| Streaming.Deltas | streaming/app.py:70-73 | the deltas of the qualifying events, in arrival order: what the loop prints between header and completion line |
| Streaming.RunPoemStream | streaming/app.py:59-76 | the output is the user line, the header, the deltas of the qualifying events in arrival order, then the completion line; when the stream raises, the deltas printed so far stay and the completion line is not printed |
| Streaming.DeltasAppend | streaming/app.py:70-73 | the deltas of two stretches of the stream are the deltas of the first followed by those of the second: nothing is reordered or held back |
| Streaming.SkippedEventChangesNothing | streaming/app.py:71-72 | an event of another type, or with a missing or empty delta, adds nothing to the output |
| Streaming.DeltasAreQualifyingDeltas | streaming/app.py:70-73 | every printed piece is non-empty and is the delta of a qualifying event |
| Streaming.DeltasCount | streaming/app.py:70-73 | the number of printed pieces equals the number of qualifying events: each is printed exactly once |
| Streaming.NothingQualifiesNothingPrinted | streaming/app.py:68-76 | with no qualifying event, nothing is printed between the header and the completion line |
| Streaming.StreamText | streaming/app.py:60-76 | the text on standard output is the user line, the header, the deltas run together with no separator, then the completion line |
| Strings.ParseIntToString | creative_agent/app.py:32 | the decimal text of an integer reads back as that integer |
| Strings.SplitJoin | firstagent/src/hello_chainlit/shopbot.py:27 | splitting lines joined by a separator they do not contain gives the lines back |
| Strings.JoinSplit | context/app.py:51-57 | joining the pieces of a split gives the text back |

Proof steps that model no source line by themselves:

- `CreativeAgent.NoConfusedKeyword`, `CreativeAgent.NoUrgentKeyword` and
  `CreativeAgent.NoSeriousKeyword` give character-level conditions under which
  a rule cannot fire; the sample-query lemmas use them.
- `CreativeAgent.QuestionMarkSurvivesLower` and `CreativeAgent.ContainsAnyTriple`
  support the corrected classifier and the rule table.
- `DynamicInstructions.GreetingsAsWritten` fixes the greetings of the role table.
- `ShopBot.ShopProductsAreSingleLine` and the four `ShopBot.KeptFrom*` lemmas
  support the catalogue and the instruction template.
- `CalendarContext.LabelsAreSingleLine` and `CalendarContext.UnlabelLabelled`
  support the reminder round trip.
- `Strings.JoinCount` counts the separators of a join.

## Left out

- Client, model and run-configuration setup, and loading the API key, are not modelled. This includes the start-up errors when the key is missing. They are environment set-up around foreign SDK objects.
- Calls to the remote model are not modelled, including the limit on turns. `HandleMessage` takes the agent as a function `run` from the history to the final output, or to `None` when the call raises. `RunPoemStream` takes the stream as the finite sequence of events it delivers and whether it then raises. The exception itself, and what Chainlit or `asyncio.run` do with it, are not modelled.
- `generate_quote` in the client deal agent is not modelled, because it is floating-point arithmetic and float formatting.
- The `for q in queries` loop that prints each agent reply is not modelled. The four sample queries are constants, and their labels are proved.
- `pizzabot_agentclone/pizza.py` is not modelled. Its only logic is an SDK agent copy plus literal string concatenation.
- `main.py` is not modelled: the whole file is commented out.
- Chainlit plumbing is not modelled.
  - The session store, message sending and the event decorators are left out.
  - The session's history is the field `ChatSession.history`.
  - The messages sent are the values the methods return.
- ShopBot.ChatSession.HandleMessage: the source fails when a message arrives before a chat started, because the stored history is missing. That case is not modelled, since a session here always has a history.
- `async`/`await`, `asyncio.run` and tool-schema generation are not modelled. The logic is modelled sequentially.
- Printing is modelled as the sequence of strings written, in order. Flushing is not modelled.
- Lower-casing is ASCII only (`A`-`Z` to `a`-`z`). Python's full Unicode `str.lower` is not modelled. Every keyword the classifier looks for is ASCII, but a non-ASCII capital in a message is left unchanged here.
- The natural-language rules inside the instruction texts are prompts to the model, not behaviour of the code. They are kept as text and nothing is proved about them.
- The sample reminder built in `context/app.py` and the agent run around it are not modelled.
- CalendarContext.ReadGetCalendarReminder: the round trip is stated only for fields without line breaks. A field holding a line break makes the text ambiguous, so no reader can recover the reminder from it. The newline count (`GetCalendarReminderNewlines`) holds for all fields.
- ShopBot.ProductListTextLines: reading the catalogue back line by line is stated only for products whose name and price have no line break, for the same reason. `ProductListTextHasEveryProduct` holds for all products.

## Findings

| source | as written | input that shows it | evidently intended | confidence | as-written member | corrected member |
|---|---|---|---|---|---|---|
| creative_agent/app.py:38-39 | `"not sure"` is looked for in the message as typed, while `"confused"` and all later keywords are looked for in `message_lower` | `"Not sure"` is classified `friendly` | every keyword is tested on the lower-cased message, so `"Not sure"` is `confused` | medium, not executed | CreativeAgent.NotSureIsCaseSensitive | CreativeAgent.DetectMoodAnyCase (proved by CreativeAgent.DetectMoodAnyCaseIgnoresCase, CreativeAgent.NotSureAnyCase, CreativeAgent.QueriesAnyCase) |
