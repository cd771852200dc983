/**
 * The Flask server (be/app.py): request validation and model-input assembly
 * of `/compare-pdfs` and `/summarize-pdf`, the label of `/sentiment`, the
 * word framing of `/stream` and the defaults of `/chat`. Downloads, uploads
 * and model calls are opaque: an uploaded file is represented by what it
 * was made from.
 */
module Server {
  import opened Wrappers
  import opened Text
  import Api

  // ------------------------------------------------------ PDF endpoints

  /** What one `genai.upload_file` call was given: a downloaded URL or a received file. */
  datatype Source = Url(url: string) | Upload(file: Api.PdfFile)

  /** One element of `contents`: an uploaded file handle or the prompt text. */
  datatype Part = Uploaded(source: Source) | Prompt(text: string)

  /** A 400 answer with its error, or the contents handed to `generate_content`. */
  datatype PdfReply = BadRequest(error: string) | Generated(contents: seq<Part>)

  const ComparePrompt := "Compare the key findings and benchmarks of these papers. Provide results in a table."
  const SummaryPrompt := "Summarize the main findings and contributions of these papers in concise bullet points."

  const NeedTwoUrls := "Provide at least 2 PDF URLs"
  const NeedTwoFiles := "Upload at least 2 PDF files"
  const NeedOneUrl := "Provide at least 1 PDF URL"
  const NeedOneFile := "Upload at least 1 PDF file"
  const NeedInput := "Provide PDF URLs in JSON or upload files"

  /** `"files" in request.files`. */
  predicate HasFiles(fields: seq<Api.FormField>) {
    exists k :: 0 <= k < |fields| && fields[k].key == "files"
  }

  /** `request.files.getlist("files")`: the files under that key, in order. */
  function FilesOf(fields: seq<Api.FormField>): (r: seq<Api.PdfFile>)
    ensures |r| <= |fields|
  {
    if fields == [] then []
    else (if fields[0].key == "files" then [fields[0].file] else []) + FilesOf(fields[1..])
  }

  /** The key is present exactly when the list under it is not empty. */
  lemma {:induction false} HasFilesIffListed(fields: seq<Api.FormField>)
    ensures HasFiles(fields) <==> FilesOf(fields) != []
  {
    if fields != [] {
      HasFilesIffListed(fields[1..]);
      if HasFiles(fields[1..]) {
        var k :| 0 <= k < |fields[1..]| && fields[1..][k].key == "files";
        assert fields[k + 1].key == "files";
      }
      if HasFiles(fields) && fields[0].key != "files" {
        var k :| 0 <= k < |fields| && fields[k].key == "files";
        assert fields[1..][k - 1].key == "files";
      }
    }
  }

  function UrlSources(urls: seq<string>): (r: seq<Source>)
    ensures |r| == |urls| && forall i :: 0 <= i < |urls| ==> r[i] == Url(urls[i])
  {
    seq(|urls|, i requires 0 <= i < |urls| => Url(urls[i]))
  }

  function FileSources(files: seq<Api.PdfFile>): (r: seq<Source>)
    ensures |r| == |files| && forall i :: 0 <= i < |files| ==> r[i] == Upload(files[i])
  {
    seq(|files|, i requires 0 <= i < |files| => Upload(files[i]))
  }

  /**
   * The inputs an endpoint reads from a request, if it has any: a JSON body's
   * `pdf_urls` (an empty list when missing), else the files under `"files"`.
   * JSON is looked at first.
   */
  function Sources(req: Api.PdfRequest): (inputs: Option<seq<Source>>)
    ensures req.OtherBody? ==> inputs.None?
    ensures req.JsonUrls? ==> inputs.Some? && |inputs.value| == |req.pdfUrls.GetOr([])|
    ensures req.JsonUrls? ==> forall i :: 0 <= i < |inputs.value| ==> inputs.value[i] == Url(req.pdfUrls.GetOr([])[i])
    ensures req.Multipart? ==> (inputs.Some? <==> HasFiles(req.fields))
    ensures req.Multipart? && inputs.Some? ==> |inputs.value| == |FilesOf(req.fields)|
    ensures req.Multipart? && inputs.Some? ==>
      forall i :: 0 <= i < |inputs.value| ==> inputs.value[i] == Upload(FilesOf(req.fields)[i])
  {
    match req
    case JsonUrls(urls) => Some(UrlSources(urls.GetOr([])))
    case Multipart(fields) => if HasFiles(fields) then Some(FileSources(FilesOf(fields))) else None
    case OtherBody => None
  }

  /** The upload loop: one uploaded handle per input, in input order. */
  method UploadAll(sources: seq<Source>) returns (files: seq<Part>)
    ensures |files| == |sources|
    ensures forall i :: 0 <= i < |sources| ==> files[i] == Uploaded(sources[i])
  {
    files := [];
    for i := 0 to |sources|
      invariant |files| == i
      invariant forall j :: 0 <= j < i ==> files[j] == Uploaded(sources[j])
    {
      files := files + [Uploaded(sources[i])];
    }
  }

  /**
   * `compare_pdfs`. Fewer than two URLs, or fewer than two files, or neither
   * kind of input is refused with its own message before anything is
   * uploaded; otherwise the model gets one uploaded handle per input, in
   * order, and the compare prompt last.
   */
  method ComparePdfs(req: Api.PdfRequest) returns (reply: PdfReply)
    ensures reply.Generated? <==> Sources(req).Some? && |Sources(req).value| >= 2
    ensures reply.BadRequest? && req.JsonUrls? ==> reply.error == NeedTwoUrls
    ensures reply.BadRequest? && req.Multipart? ==> reply.error == if HasFiles(req.fields) then NeedTwoFiles else NeedInput
    ensures req.OtherBody? ==> reply == BadRequest(NeedInput)
    ensures reply.Generated? ==>
      && |reply.contents| == |Sources(req).value| + 1
      && (forall i :: 0 <= i < |Sources(req).value| ==> reply.contents[i] == Uploaded(Sources(req).value[i]))
      && reply.contents[|Sources(req).value|] == Prompt(ComparePrompt)
  {
    var sources: seq<Source>;
    match req {
      case JsonUrls(urls) =>
        var pdfUrls := urls.GetOr([]);
        if |pdfUrls| < 2 {
          return BadRequest(NeedTwoUrls);
        }
        sources := UrlSources(pdfUrls);
      case Multipart(fields) =>
        if !HasFiles(fields) {
          return BadRequest(NeedInput);
        }
        var uploaded := FilesOf(fields);
        if |uploaded| < 2 {
          return BadRequest(NeedTwoFiles);
        }
        sources := FileSources(uploaded);
      case OtherBody =>
        return BadRequest(NeedInput);
    }
    var files := UploadAll(sources);
    reply := Generated(files + [Prompt(ComparePrompt)]);
  }

  /**
   * `summarize_pdf`. An empty URL list, or neither kind of input, is refused
   * before anything is uploaded; the refusal of an empty file list can never
   * be given, since the `"files"` key is only present with a file under it.
   * Otherwise the model gets one uploaded handle per input, in order, and
   * the summary prompt last.
   */
  method SummarizePdf(req: Api.PdfRequest) returns (reply: PdfReply)
    ensures reply.Generated? <==> Sources(req).Some? && |Sources(req).value| >= 1
    ensures reply.BadRequest? ==> reply.error == (if req.JsonUrls? then NeedOneUrl else NeedInput)
    ensures reply != BadRequest(NeedOneFile)
    ensures reply.Generated? ==>
      && |reply.contents| == |Sources(req).value| + 1
      && (forall i :: 0 <= i < |Sources(req).value| ==> reply.contents[i] == Uploaded(Sources(req).value[i]))
      && reply.contents[|Sources(req).value|] == Prompt(SummaryPrompt)
  {
    var sources: seq<Source>;
    match req {
      case JsonUrls(urls) =>
        var pdfUrls := urls.GetOr([]);
        if pdfUrls == [] {
          return BadRequest(NeedOneUrl);
        }
        sources := UrlSources(pdfUrls);
      case Multipart(fields) =>
        if !HasFiles(fields) {
          return BadRequest(NeedInput);
        }
        var uploaded := FilesOf(fields);
        HasFilesIffListed(fields);
        if uploaded == [] {
          // never taken: the key is only present with a file under it
          assert false;
          return BadRequest(NeedOneFile);
        }
        sources := FileSources(uploaded);
      case OtherBody =>
        return BadRequest(NeedInput);
    }
    var files := UploadAll(sources);
    reply := Generated(files + [Prompt(SummaryPrompt)]);
  }

  // ---------------------------------------------------------- sentiment

  /** The label for a polarity: positive above 0.1, negative below -0.1,
      neutral in between (both ends included). */
  function Classify(polarity: real): (verdict: string)
    ensures verdict == "positive" <==> polarity > 0.1
    ensures verdict == "negative" <==> polarity < -0.1
    ensures verdict == "neutral" <==> -0.1 <= polarity <= 0.1
  {
    if polarity > 0.1 then "positive"
    else if polarity < -0.1 then "negative"
    else "neutral"
  }

  const NeedText := "Provide text for sentiment analysis"

  /**
   * `analyze_sentiment` given TextBlob's scores for the text: a missing or
   * empty text is refused; otherwise the answer echoes the text, unchanged,
   * with its label and the two scores.
   */
  function AnalyzeSentiment(body: Api.SentimentBody, polarity: real, subjectivity: real): (r: Api.SentimentReply)
    ensures r.SentimentError? <==> body.text.None? || body.text.value == ""
    ensures r.SentimentError? ==> r.error == NeedText
    ensures r.Scored? ==>
      && r.text == body.text.value && r.sentiment == Classify(polarity)
      && r.polarity == polarity && r.subjectivity == subjectivity
  {
    var text := body.text.GetOr("");
    if text == "" then Api.SentimentError(NeedText)
    else Api.Scored(text, Classify(polarity), polarity, subjectivity)
  }

  // -------------------------------------------------------------- stream

  /** One server-sent event carrying a word. */
  function Frame(word: string): (f: string)
    ensures |f| == |word| + 9
  {
    "data: " + word + " \n\n"
  }

  /** The client side of a frame: the word between `"data: "` and `" \n\n"`. */
  function Unframe(f: string): (word: Option<string>)
    ensures word.Some? ==> |f| == |word.value| + 9
  {
    if |f| >= 9 && f[..6] == "data: " && f[|f| - 3..] == " \n\n" then Some(f[6..|f| - 3]) else None
  }

  /** Every frame gives back its word. */
  lemma UnframeFrame(word: string)
    ensures Unframe(Frame(word)) == Some(word)
  {
    var f := Frame(word);
    assert f[..6] == "data: ";
    assert f[|f| - 3..] == " \n\n";
    assert f[6..|f| - 3] == word;
  }

  /** A word's frame has no line break before its closing blank line, so
      the stream splits back into exactly the frames sent. */
  lemma FrameEndsOnce(word: string)
    requires IsWord(word)
    ensures forall k :: 0 <= k < |Frame(word)| - 2 ==> Frame(word)[k] != '\n'
  {
    var f := Frame(word);
    forall k | 0 <= k < |f| - 2 ensures f[k] != '\n' {
      if 6 <= k < 6 + |word| {
        assert f[k] == word[k - 6];
      }
    }
  }

  /** `data.get("chat", "Hello")`. */
  function StreamMessage(body: Api.ChatBody): (m: string)
    ensures body.chat.None? ==> m == "Hello"
    ensures body.chat.Some? ==> m == body.chat.value
  {
    body.chat.GetOr("Hello")
  }

  /** The `generate` loop: one frame per whitespace-separated word, in order. */
  method Stream(body: Api.ChatBody) returns (frames: seq<string>)
    ensures |frames| == |Words(StreamMessage(body))|
    ensures forall i :: 0 <= i < |frames| ==> frames[i] == Frame(Words(StreamMessage(body))[i])
    ensures forall i :: 0 <= i < |frames| ==> Unframe(frames[i]) == Some(Words(StreamMessage(body))[i])
  {
    var words := Words(StreamMessage(body));
    frames := [];
    for i := 0 to |words|
      invariant |frames| == i
      invariant forall j :: 0 <= j < i ==> frames[j] == Frame(words[j])
      invariant forall j :: 0 <= j < i ==> Unframe(frames[j]) == Some(words[j])
    {
      UnframeFrame(words[i]);
      frames := frames + [Frame(words[i])];
    }
  }

  // ---------------------------------------------------------------- chat

  /** `data.get('chat', '')` and `data.get('history', [])`. */
  function ChatInputs(body: Api.ChatBody): (r: (string, seq<Api.Turn>))
    ensures body.chat.None? ==> r.0 == ""
    ensures body.chat.Some? ==> r.0 == body.chat.value
    ensures body.history.None? ==> r.1 == []
    ensures body.history.Some? ==> r.1 == body.history.value
  {
    (body.chat.GetOr(""), body.history.GetOr([]))
  }
}
