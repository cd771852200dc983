/**
 * The JSON and multipart bodies exchanged between the pages and the Flask
 * server, as each side reads them. A key that may be missing is an `Option`.
 */
module Api {
  import opened Wrappers

  /** How `await fetch(...)` followed by `await res.json()` ends: a parsed body
      with the response's `ok` flag, or an exception (network failure, or a
      body that is not JSON). */
  datatype Fetched<T> = Parsed(ok: bool, body: T) | Threw

  /** One earlier turn handed to the model's chat session; its content is opaque here. */
  datatype Turn = Turn(role: string, text: string)

  /** Body of `POST /chat` and `POST /stream`: `{"chat": ..., "history": ...}`. */
  datatype ChatBody = ChatBody(chat: Option<string>, history: Option<seq<Turn>>)

  /** Body of the `/chat` answer as the page reads it: `data.text` may be missing. */
  datatype ChatReply = ChatReply(text: Option<string>)

  /** Body of `POST /sentiment`. */
  datatype SentimentBody = SentimentBody(text: Option<string>)

  /** Answer of `/sentiment`: a 400 with an error, or the scored text. */
  datatype SentimentReply =
    | SentimentError(error: string)
    | Scored(text: string, sentiment: string, polarity: real, subjectivity: real)

  /** A PDF chosen in the file picker or received by the server; its bytes are opaque. */
  datatype PdfFile = PdfFile(name: string)

  /** One `formData.append(key, file)` entry of a multipart body. */
  datatype FormField = FormField(key: string, file: PdfFile)

  /** A request to `/compare-pdfs` or `/summarize-pdf` as Flask classifies it:
      a JSON body (`request.is_json`), a multipart form, or anything else. */
  datatype PdfRequest =
    | JsonUrls(pdfUrls: Option<seq<string>>)
    | Multipart(fields: seq<FormField>)
    | OtherBody

  /** Body of a `/compare-pdfs` answer as the page reads it: `data.result` and
      `data.error` may be missing; `dump` is `JSON.stringify(data, null, 2)`,
      whose rendering is not modelled. */
  datatype CompareJson = CompareJson(result: Option<string>, error: Option<string>, dump: string)
}
