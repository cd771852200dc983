# AI Chat App: a Dafny model of its pages and its Flask server

This project models the logic of a small web application: a React front
end with four pages and a Flask back end in front of a hosted language
model.

- **Chat page.** It sends a trimmed draft to `/chat`. It shows an empty bot
  placeholder and then reveals the reply one character per tick. It can also
  type an example prompt into the input and send it on its own.
- **Home page.** It types its welcome title out one character per tick.
- **Feedback-analysis page.** It posts a text to `/sentiment`. It shows the
  label with a colour, an emoji and a polarity bar, and keeps a history,
  newest first, with per-label counts.
- **Compare page.** It sends either the chosen PDF files, as a multipart
  form, or the URLs typed one per line, as JSON, to `/compare-pdfs`. It then
  shows the result or the error.
- **Server.** Its endpoints validate the PDF requests, upload one file per
  input and hand the model the uploads followed by a fixed prompt. They also
  label a polarity, frame a message word by word for `/stream` and default
  the inputs of `/chat`.

Each file is modelled in the form the original code takes:

- State that the pages update step by step is a `class`:
  - `Chat.ChatPage`
  - `App.Home`
  - `Sentiment.SentimentPage`
  - `ComparePdfs.ComparePage`
- Each timer firing is a method call (`RevealTick`, `FillTick`, `Tick`).
- Each awaited `fetch` is split in two: a method that sends the request, and
  a method that receives the outcome as a parameter (`Api.Fetched`).
- The pure mappings and the string handling are functions, with lemmas about
  them.
- The server's loops are methods with loop invariants.
- `EndToEnd` connects each page's request to the endpoint that reads it.

The string operations follow the two languages:

- JavaScript's `trim` removes the ECMAScript whitespace set.
- Python's `str.split()` splits on Python's own, different set.
- `split("\n")` and `slice(0, n)` are written out in `Text`.

## Model

| member | source | states |
|---|---|---|
| Text.Trim | fe/src/pages/Chat.jsx:49 | `trim()` never lengthens the string; `Text.TrimIsInfix` states exactly what it keeps and cuts |
| Text.TrimIsInfix | fe/src/pages/Chat.jsx:54 | `trim` keeps a contiguous piece of the string with no whitespace at either end, and everything it cuts away is whitespace |
| Text.TrimBlankIffAllSpace | fe/src/pages/Chat.jsx:49 | `!s.trim()` holds exactly when `s` is all whitespace |
| Text.TrimIdempotent | fe/src/pages/ComparePDFs.jsx:35 | trimming an already trimmed URL changes nothing |
| Text.Slice | fe/src/pages/Chat.jsx:81 | `slice(0, n)` is a prefix of length min(n, length), and the whole string once n reaches its length |
| Text.SliceMonotone | fe/src/pages/Chat.jsx:80-81 | revealing more characters only extends what is shown, and strictly while characters remain |
| Text.Split | fe/src/pages/ComparePDFs.jsx:34 | `split("\n")` gives at least one piece, and no piece contains a newline |
| Text.JoinSplit | fe/src/pages/ComparePDFs.jsx:34 | joining the lines back with newlines gives the original text |
| Text.SplitCount | fe/src/pages/ComparePDFs.jsx:34 | there is one more line than there are newlines |
| Text.Words | be/app.py:91 | every word of `message.split()` is non-empty and has no whitespace |
| Text.WordsKeepText | be/app.py:91 | the words, concatenated, are exactly the message's non-whitespace characters in order |
| Text.WordsAtSpace | be/app.py:91 | a whitespace character always separates words: the words of `a + c + b` are those of `a` followed by those of `b` |
| Text.WordsOfWord | be/app.py:91 | a run of non-whitespace characters is a single word |
| Text.WordsOfBlank | be/app.py:91 | a string of only whitespace has no words; with the two lemmas above this fixes `split()` as the maximal non-whitespace runs |
| Chat.SendText | fe/src/pages/Chat.jsx:49-54 | nothing is sent when the trimmed draft is empty, otherwise the trimmed draft; `Chat.SendTextRefusesBlank` states this as all-whitespace drafts |
| Chat.ReplyText | fe/src/pages/Chat.jsx:74 | `data.text \|\| ""`: the reply text, or "" when the answer has none |
| Chat.PatchText | fe/src/pages/Chat.jsx:82-84 | the `map` keeps the number of messages; `Chat.PatchTextAt` states what it changes |
| Chat.SendTextRefusesBlank | fe/src/pages/Chat.jsx:49-55 | a draft is refused exactly when it is all whitespace; otherwise what is sent is the trimmed draft, which is non-empty and trimmed |
| Chat.PatchTextAt | fe/src/pages/Chat.jsx:82-84 | the `map` over the messages keeps every position, id and sender; it replaces the text of the messages with the bot id and leaves all others exactly as they were |
| Chat.PatchShown | fe/src/pages/Chat.jsx:82-84 | patching a message with the text it already shows changes nothing |
| Chat.PatchTwice | fe/src/pages/Chat.jsx:82-84 | of two patches of the same id, only the last is visible |
| Chat.IdsDistinct | fe/src/pages/Chat.jsx:52 | message ids strictly increase along the transcript, so no two messages share an id |
| Chat.SendKeepsFreshIds | fe/src/pages/Chat.jsx:51-64 | the user message and the bot placeholder get two new ids above every earlier id |
| Chat.SendKeepsPlaceholders | fe/src/pages/Chat.jsx:58-65 | after a send, the new placeholder is an empty bot message awaiting its reply, and every earlier placeholder still shows what it showed |
| Chat.PatchKeepsInvariant | fe/src/pages/Chat.jsx:92-94 | overwriting a placeholder whose request has settled keeps the ids and every other placeholder |
| Chat.RetrackKeepsPlaceholders | fe/src/pages/Chat.jsx:74-81 | a placeholder showing exactly the revealed prefix can be tracked as a running reveal |
| Chat.DropAwaiting | fe/src/pages/Chat.jsx:73 | a request whose answer arrived no longer constrains its placeholder as awaiting |
| Chat.RevealStep | fe/src/pages/Chat.jsx:79-89 | a reveal tick keeps the invariant; the placeholder's new text extends the old, strictly for a non-empty reply; the reveal stays tracked until the whole reply is shown |
| Chat.ChatPage.constructor | fe/src/pages/Chat.jsx:5-8 | the page starts with no messages, an empty draft and both flags off |
| Chat.ChatPage.HandleSend | fe/src/pages/Chat.jsx:48-65 | a blank draft changes nothing; otherwise the trimmed draft is the request. The user message and an empty bot placeholder with fresh ids are appended, the draft is cleared and `isTyping` is set |
| Chat.ChatPage.PressSend | fe/src/pages/Chat.jsx:172-178 | Enter and the Send button do nothing while `isTyping`; otherwise they have the whole effect of `handleSend`: a blank draft changes nothing, and a send appends both messages with fresh ids, records the outstanding request, clears the draft and sets `isTyping` |
| Chat.ChatPage.EditDraft | fe/src/pages/Chat.jsx:170-173 | typing replaces the draft unless the input is disabled by `isTyping` |
| Chat.ChatPage.Respond | fe/src/pages/Chat.jsx:67-96 | whatever the status, a parsed answer starts revealing `data.text \|\| ""` from 0 characters; a thrown error writes the fixed error text into the placeholder and clears `isTyping` |
| Chat.ChatPage.RevealTick | fe/src/pages/Chat.jsx:79-89 | each tick shows the first i+1 characters of the reply; on reaching its length the interval stops and `isTyping` is cleared |
| Chat.ChatPage.RunReveal | fe/src/pages/Chat.jsx:77-89 | run to its end, a reveal leaves the placeholder showing the whole reply and `isTyping` false |
| Chat.ChatPage.TypeIntoInput | fe/src/pages/Chat.jsx:100-104 | ignored while `isTyping` or `isAutoTyping`; otherwise sets `isAutoTyping`, clears the draft and starts typing the example |
| Chat.ChatPage.FillTick | fe/src/pages/Chat.jsx:106-117 | each tick puts the first i+1 characters of the example in the draft; at its end the interval stops, `isAutoTyping` is cleared and, with `autoSend`, one send is scheduled |
| Chat.ChatPage.RunFill | fe/src/pages/Chat.jsx:104-117 | run to its end, the example-typing interval leaves the whole example in the draft and schedules one send when asked to |
| Chat.ChatPage.AutoSendTimeout | fe/src/pages/Chat.jsx:112-115 | the scheduled send consumes its timeout and sends the current draft as `handleSend` does |
| Chat.StaleAutoSend | fe/src/pages/Chat.jsx:114 | as written, the auto-send submits the draft of the moment the example was clicked: nothing when that draft was blank, otherwise its trimmed text |
| Chat.StaleAutoSendDropsExample | fe/src/pages/Chat.jsx:112-115 | with an empty input, the example is typed but the auto-send sends nothing, where the example should have been sent |
| Chat.ExampleTurn | fe/src/pages/Chat.jsx:100-117 | on a fresh page, an example that is typed, auto-sent, answered and revealed ends as exactly the trimmed example from the user and the full reply from the bot, with `isTyping` false |
| App.Home.constructor | fe/src/App.jsx:11-16 | on mount the title is empty and the interval is running |
| App.Home.Tick | fe/src/App.jsx:17-24 | each tick shows one more character of the title, extending what was shown; the tick after the whole title is shown clears the interval |
| App.Home.Unmount | fe/src/App.jsx:26 | unmounting clears the interval and keeps what is shown |
| App.Home.Animate | fe/src/App.jsx:16-24 | the interval fires once per hidden character plus once to clear itself, and ends with the whole title shown |
| App.WelcomeAnimation | fe/src/App.jsx:13-24 | from mount, the interval stops after 23 ticks with "Welcome to AI Chat App" fully shown; the title is complete from tick 22 and the 23rd tick only clears the interval |
| Sentiment.SentimentColor | fe/src/pages/SentimentAnalysis.jsx:40-51 | the default style is used exactly for labels other than positive, negative and neutral |
| Sentiment.SentimentEmoji | fe/src/pages/SentimentAnalysis.jsx:53-64 | every label gets one symbol, and the question mark exactly for unknown labels |
| Sentiment.StylesTellLabelsApart | fe/src/pages/SentimentAnalysis.jsx:40-64 | two different known labels never share a style or an emoji |
| Sentiment.PolarityBarColor | fe/src/pages/SentimentAnalysis.jsx:66-70 | green exactly above 0.3, red exactly below -0.3, gray exactly in between |
| Sentiment.Label | fe/src/pages/SentimentAnalysis.jsx:198 | `h.sentiment`: an entry has a label exactly when its answer was scored, and it is the answer's label |
| Sentiment.CountLabel | fe/src/pages/SentimentAnalysis.jsx:198 | a label's count never exceeds the number of history entries |
| Sentiment.SummaryBounded | fe/src/pages/SentimentAnalysis.jsx:194-212 | the positive, neutral and negative counts together never exceed the number of entries |
| Sentiment.CountPrepend | fe/src/pages/SentimentAnalysis.jsx:28 | a new entry adds one to its own label's count and nothing to the others |
| Sentiment.Snippet | fe/src/pages/SentimentAnalysis.jsx:188 | the snippet is the prefix of the text of length min(80, length), and the whole text exactly when it has at most 80 characters |
| Sentiment.ExamplesAreAnalyzable | fe/src/pages/SentimentAnalysis.jsx:9-14 | every example text passes the blank-input guard |
| Sentiment.SentimentPage.constructor | fe/src/pages/SentimentAnalysis.jsx:5-7 | empty text, no result, empty history |
| Sentiment.SentimentPage.SetText | fe/src/pages/SentimentAnalysis.jsx:36-38 | `useExampleMessage` and typing set the text verbatim and touch nothing else |
| Sentiment.SentimentPage.HandleAnalyze | fe/src/pages/SentimentAnalysis.jsx:16-23 | nothing is sent exactly when the text is all whitespace; otherwise the request carries the untrimmed text |
| Sentiment.SentimentPage.Settle | fe/src/pages/SentimentAnalysis.jsx:24-33 | a parsed answer becomes the shown result and the newest history entry, with the older entries after it unchanged, and clears the text; a thrown error changes nothing |
| Sentiment.AnalyzeExample | fe/src/pages/SentimentAnalysis.jsx:16-38 | an example is sent verbatim, and its scored answer becomes the single entry and counts once under its label |
| ComparePdfs.ParseUrls | fe/src/pages/ComparePDFs.jsx:33-36 | at most one URL per line; `ComparePdfs.TrimNonEmptyPicks` and `ComparePdfs.TrimNonEmptyClean` state that the URLs are exactly the trimmed non-blank lines in order |
| ComparePdfs.TrimNonEmpty | fe/src/pages/ComparePDFs.jsx:35-36 | there are never more URLs than lines |
| ComparePdfs.PicksMatch | fe/src/pages/ComparePDFs.jsx:35 | each parsed URL is the trimmed text of the line it came from |
| ComparePdfs.PicksIncrease | fe/src/pages/ComparePDFs.jsx:36 | the parsed URLs keep the lines' order |
| ComparePdfs.PicksComplete | fe/src/pages/ComparePDFs.jsx:36 | no line that is not blank is dropped |
| ComparePdfs.TrimNonEmptyPicks | fe/src/pages/ComparePDFs.jsx:33-36 | the parsed URLs are exactly the trimmed non-blank lines, in line order |
| ComparePdfs.TrimNonEmptyClean | fe/src/pages/ComparePDFs.jsx:35-36 | every parsed URL is non-empty and has no whitespace at either end |
| ComparePdfs.ParseUrlsCount | fe/src/pages/ComparePDFs.jsx:33-36 | there are at most one more URLs than newlines in the text |
| ComparePdfs.SplitKeepsBlank | fe/src/pages/ComparePDFs.jsx:34 | every line of an all-whitespace text is all whitespace |
| ComparePdfs.TrimNonEmptyBlank | fe/src/pages/ComparePDFs.jsx:36 | lines that are all whitespace all drop out |
| ComparePdfs.ParseUrlsBlank | fe/src/pages/ComparePDFs.jsx:32-36 | a URL text of only whitespace parses to no URL at all |
| ComparePdfs.FormFields | fe/src/pages/ComparePDFs.jsx:24-27 | the form has one `"files"` entry per chosen file, in order |
| ComparePdfs.BuildFormData | fe/src/pages/ComparePDFs.jsx:24-27 | the append loop builds exactly that form |
| ComparePdfs.SubmitRequest | fe/src/pages/ComparePDFs.jsx:23-47 | chosen files win over URL text; a non-empty URL text, even all whitespace, is sent as JSON; with neither, nothing is sent |
| ComparePdfs.OrElse | fe/src/pages/ComparePDFs.jsx:51 | `a \|\| b` falls back to `b` when `a` is missing or empty |
| ComparePdfs.ComparePage.constructor | fe/src/pages/ComparePDFs.jsx:5-9 | empty URL text, no files, no result, no error, not loading |
| ComparePdfs.ComparePage.SetUrls | fe/src/pages/ComparePDFs.jsx:73 | typing replaces the URL text |
| ComparePdfs.ComparePage.ChooseFiles | fe/src/pages/ComparePDFs.jsx:11-13 | a new selection replaces the chosen files |
| ComparePdfs.ComparePage.HandleSubmit | fe/src/pages/ComparePDFs.jsx:15-47 | result and error are cleared; the request sent is `SubmitRequest` of the files and the URL text; `loading` stays set exactly when a request was sent |
| ComparePdfs.ComparePage.Settle | fe/src/pages/ComparePDFs.jsx:49-60 | an ok answer shows its result or the whole answer; any other answer shows its error or "Something went wrong"; a thrown error shows "Error connecting to backend"; `loading` ends false |
| Server.FilesOf | be/app.py:53 | `getlist("files")` has at most one file per form field |
| Server.HasFiles | be/app.py:52 | `"files" in request.files`: some form field is keyed `"files"`; `Server.HasFilesIffListed` ties it to `getlist` |
| Server.HasFilesIffListed | be/app.py:133-136 | the `"files"` key is present exactly when its list is non-empty |
| Server.Sources | be/app.py:37-53 | a JSON body gives `Url(pdf_urls[i])` for each entry, in order, and no inputs when the key is missing; a form gives inputs exactly when `"files"` is present, `Upload(getlist("files")[i])` for each file, in order; any other body gives none |
| Server.UploadAll | be/app.py:45-49 | one uploaded handle per input, in input order |
| Server.ComparePdfs | be/app.py:32-76 | the request is refused unless it has at least two URLs or two files, with a message for each case, before anything is uploaded; otherwise the contents are one upload per input, in order, then the compare prompt |
| Server.SummarizePdf | be/app.py:107-154 | the request is refused unless it has at least one URL or file; the "Upload at least 1 PDF file" refusal is never given; otherwise the contents are one upload per input, in order, then the summary prompt |
| Server.Classify | be/app.py:177-183 | positive exactly above 0.1, negative exactly below -0.1, neutral otherwise |
| Server.AnalyzeSentiment | be/app.py:167-190 | a missing or empty text is refused; otherwise the answer echoes the text with its label and scores |
| Server.Frame | be/app.py:92 | a frame is its word plus nine characters of framing |
| Server.UnframeFrame | be/app.py:92 | a client reading `data: ` … ` \n\n` gets the word back from its frame |
| Server.FrameEndsOnce | be/app.py:91-92 | a word's frame has no line break before its closing blank line |
| Server.StreamMessage | be/app.py:88 | the message defaults to "Hello" when `chat` is missing |
| Server.Stream | be/app.py:86-95 | one frame per whitespace-separated word of the message, in order |
| Server.ChatInputs | be/app.py:100-102 | a missing `chat` defaults to "" and a missing history to [] |
| EndToEnd.ChatRequest | fe/src/pages/Chat.jsx:71 | the chat request carries the sent text and no history |
| EndToEnd.ChatReachesModel | fe/src/pages/Chat.jsx:68-72 | the server's chat session gets exactly the trimmed, non-blank draft and an empty history |
| EndToEnd.AnalyzedTextIsScored | be/app.py:168-171 | a text the page sends is never refused; the server echoes it untrimmed with one of the three labels, so its card never takes the default style |
| EndToEnd.BarAgreesWithLabel | fe/src/pages/SentimentAnalysis.jsx:66-70 | for the same polarity, a green bar means positive, a red bar negative, and neutral means gray |
| EndToEnd.FormRoundTrip | fe/src/pages/ComparePDFs.jsx:24-27 | the server reads back from the page's form exactly the chosen files, in order |
| EndToEnd.CompareFromPage | fe/src/pages/ComparePDFs.jsx:23-42 | chosen files are compared when there are at least two and otherwise refused; the model gets one upload per file, in order. URL text is compared when it parses to at least two URLs; the model gets one download per parsed URL, in order. A whitespace-only URL text is sent and refused |
| EndToEnd.StreamDefault | be/app.py:88-92 | with no `chat` key the stream is the single frame `data: Hello \n\n` |

## Left out

- **Network and model calls.** HTTP, `fetch`, Flask's request parsing,
  `httpx.get`, file uploads, model calls and TextBlob's scoring are not
  modelled. Their results are parameters, or opaque values such as
  `Server.Source` and `Api.CompareJson.dump`.
- **Numbers.** `round(…, 3)` is not modelled. Polarity is an exact real, so
  `EndToEnd.BarAgreesWithLabel` relates the bar and the label for the same
  value. The bar widths are floating-point arithmetic and are also left out.
- **Timing.** The 18, 20 and 100 ms intervals, the 300 ms delay and
  `time.sleep(0.5)` are discrete method calls. Interleavings are whatever
  order the caller chooses.
- **Presentation.** Rendering, CSS classes, scrolling, routing, the
  navigation bar, `config.js` and `toLocaleTimeString` are not modelled. The
  timestamp is a parameter.
- **Message ids.** `Date.now() + Math.random()` is modelled as a counter of
  fresh naturals, so ids never collide.
- **Character counts.** Strings are sequences of Unicode code points.
  JavaScript's `length`, `slice` and `substring` count UTF-16 units, so for
  characters outside the Basic Multilingual Plane:
  - the reveal and snippet lengths differ from the original's;
  - the original can reveal half a surrogate pair.
- **JSON shapes.** A JSON `null`, a non-list `pdf_urls` and a non-string
  `text` are not modelled; only a missing key is. Flask's `request.files`
  holds every form field the page sends, since each carries a file.
- Sentiment.SentimentPage.Settle: prepends to the current history. The
  original prepends to the history captured when the button was pressed,
  so when two analyses overlap, one result would be dropped.
- **Summary page.** The summary page (`SummarizePDF.jsx`) is not part of
  this model. Its endpoint `summarize_pdf` is modelled.
- **Chat answers are not checked for errors.** The chat page never checks
  `res.ok`: a non-2xx answer whose body parses as JSON is revealed like any
  other, and one without `text` reveals an empty reply.

## Findings

| source | as written | input that shows it | evidently intended | confidence | as-written member | corrected member |
|---|---|---|---|---|---|---|
| fe/src/pages/Chat.jsx:112-115 | The auto-send timeout calls the `handleSend` of the render in which the example button was clicked, and that `handleSend` trims the draft of that render. | Empty input, click an example: the example is typed into the input, then nothing is sent. | The typed example is sent. | high, not executed | Chat.StaleAutoSendDropsExample | Chat.ExampleTurn |
