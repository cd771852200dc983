/**
 * What the pages and the server do together: each page's request read by
 * the endpoint it is sent to.
 */
module EndToEnd {
  import opened Wrappers
  import opened Text
  import Api
  import Chat
  import Sentiment
  import ComparePdfs
  import Server

  /** The body the chat page posts for a sent text: `{chat: text}`, no history. */
  function ChatRequest(text: string): (body: Api.ChatBody)
    ensures body.chat == Some(text) && body.history.None?
  {
    Api.ChatBody(Some(text), None)
  }

  /** The server's chat session gets exactly the trimmed draft, which is never
      blank, and an empty history. */
  lemma ChatReachesModel(draft: string)
    requires Chat.SendText(draft).Some?
    ensures var t := Chat.SendText(draft).value;
      Server.ChatInputs(ChatRequest(t)) == (Trim(draft), []) && t != "" && IsTrimmed(t)
  {
    Chat.SendTextRefusesBlank(draft);
  }

  /** A text the feedback page sends is never refused by the server, which
      echoes it untrimmed and gives it one of the three labels, so its card
      never falls back to the default style or emoji. */
  lemma AnalyzedTextIsScored(text: string, polarity: real, subjectivity: real)
    requires !AllJsSpace(text)
    ensures var r := Server.AnalyzeSentiment(Api.SentimentBody(Some(text)), polarity, subjectivity);
      && r.Scored? && r.text == text && Sentiment.IsKnownLabel(r.sentiment)
      && Sentiment.SentimentColor(r.sentiment) != Sentiment.DefaultColor
      && Sentiment.SentimentEmoji(r.sentiment) != Sentiment.DefaultEmoji
  {
    assert text != [];
  }

  /** The polarity bar never contradicts the label (on the same polarity): a
      green bar means positive, a red bar negative, and neutral means gray. */
  lemma BarAgreesWithLabel(polarity: real)
    ensures Sentiment.PolarityBarColor(polarity) == Sentiment.GreenBar ==> Server.Classify(polarity) == "positive"
    ensures Sentiment.PolarityBarColor(polarity) == Sentiment.RedBar ==> Server.Classify(polarity) == "negative"
    ensures Server.Classify(polarity) == "neutral" ==> Sentiment.PolarityBarColor(polarity) == Sentiment.GrayBar
  {
  }

  /** The server reads back from the page's form exactly the chosen files, in order. */
  lemma {:induction false} FormRoundTrip(files: seq<Api.PdfFile>)
    ensures Server.FilesOf(ComparePdfs.FormFields(files)) == files
  {
    if files != [] {
      FormRoundTrip(files[1..]);
      assert ComparePdfs.FormFields(files)[1..] == ComparePdfs.FormFields(files[1..]);
    }
  }

  /**
   * A comparison submitted from the page: with files chosen, the server
   * compares exactly those files, in order, when there are at least two and
   * refuses a single one; with only URL text, it compares the parsed URLs
   * when there are at least two; a text of only whitespace is sent and
   * refused for having fewer than two URLs.
   */
  method CompareFromPage(files: seq<Api.PdfFile>, pdfUrls: string)
    returns (req: Option<Api.PdfRequest>, reply: Option<Server.PdfReply>)
    ensures req == ComparePdfs.SubmitRequest(files, pdfUrls)
    ensures req.None? <==> reply.None?
    ensures files != [] ==>
      && (reply.value.Generated? <==> |files| >= 2)
      && (reply.value.BadRequest? ==> reply.value.error == Server.NeedTwoFiles)
      && (reply.value.Generated? ==> |reply.value.contents| == |files| + 1)
      && (reply.value.Generated? ==> forall i :: 0 <= i < |files| ==>
            reply.value.contents[i] == Server.Uploaded(Server.Upload(files[i])))
    ensures files == [] && pdfUrls != "" ==>
      && (reply.value.Generated? <==> |ComparePdfs.ParseUrls(pdfUrls)| >= 2)
      && (reply.value.BadRequest? ==> reply.value.error == Server.NeedTwoUrls)
      && (reply.value.Generated? ==> |reply.value.contents| == |ComparePdfs.ParseUrls(pdfUrls)| + 1)
      && (reply.value.Generated? ==> forall i :: 0 <= i < |ComparePdfs.ParseUrls(pdfUrls)| ==>
            reply.value.contents[i] == Server.Uploaded(Server.Url(ComparePdfs.ParseUrls(pdfUrls)[i])))
    ensures files == [] && pdfUrls != "" && AllJsSpace(pdfUrls) ==>
      reply == Some(Server.BadRequest(Server.NeedTwoUrls))
  {
    req := ComparePdfs.SubmitRequest(files, pdfUrls);
    if req.None? {
      return req, None;
    }
    if files != [] {
      FormRoundTrip(files);
      var fields := ComparePdfs.FormFields(files);
      assert fields[0].key == "files";
      assert Server.HasFiles(fields);
    } else if AllJsSpace(pdfUrls) {
      ComparePdfs.ParseUrlsBlank(pdfUrls);
    }
    var r := Server.ComparePdfs(req.value);
    reply := Some(r);
  }

  /** With no `chat` key the stream sends the single frame for "Hello". */
  method StreamDefault() returns (frames: seq<string>)
    ensures frames == ["data: Hello \n\n"]
  {
    var m := "Hello";
    WordsOfWord(m);
    frames := Server.Stream(Api.ChatBody(None, None));
    assert frames[0] == Server.Frame(m) == "data: Hello \n\n";
  }
}
