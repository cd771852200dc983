/**
 * The feedback-analysis page (fe/src/pages/SentimentAnalysis.jsx): the text
 * box, the last result and the history of results, newest first, with the
 * label-to-style mappings and the summary counts the page renders from them.
 */
module Sentiment {
  import opened Wrappers
  import opened Text
  import Api

  /** The three labels the server assigns. */
  predicate IsKnownLabel(verdict: string) {
    verdict == "positive" || verdict == "negative" || verdict == "neutral"
  }

  const DefaultColor := "bg-gray-100"
  const DefaultEmoji := "\U{2753}"

  /** `getSentimentColor`: the card classes for a verdict. */
  function SentimentColor(verdict: string): (r: string)
    ensures r == DefaultColor <==> !IsKnownLabel(verdict)
  {
    match verdict
    case "positive" => "bg-green-100 border-green-500 text-green-800"
    case "negative" => "bg-red-100 border-red-500 text-red-800"
    case "neutral" => "bg-gray-100 border-gray-500 text-gray-800"
    case _ => DefaultColor
  }

  /** `getSentimentEmoji`: one symbol per verdict, the question mark for any other. */
  function SentimentEmoji(verdict: string): (r: string)
    ensures |r| == 1
    ensures r == DefaultEmoji <==> !IsKnownLabel(verdict)
  {
    match verdict
    case "positive" => "\U{1F60A}"
    case "negative" => "\U{1F61E}"
    case "neutral" => "\U{1F610}"
    case _ => DefaultEmoji
  }

  /** Different known labels never share a card style or an emoji. */
  lemma StylesTellLabelsApart(a: string, b: string)
    requires IsKnownLabel(a) && IsKnownLabel(b) && a != b
    ensures SentimentColor(a) != SentimentColor(b)
    ensures SentimentEmoji(a) != SentimentEmoji(b)
  {
  }

  const GreenBar := "bg-green-500"
  const RedBar := "bg-red-500"
  const GrayBar := "bg-gray-400"

  /** `getPolairtyBarColor`: green above 0.3, red below -0.3, gray in between
      (both ends included). */
  function PolarityBarColor(polarity: real): (r: string)
    ensures r == GreenBar <==> polarity > 0.3
    ensures r == RedBar <==> polarity < -0.3
    ensures r == GrayBar <==> -0.3 <= polarity <= 0.3
  {
    if polarity > 0.3 then GreenBar
    else if polarity < -0.3 then RedBar
    else GrayBar
  }

  /** A history entry: the answer's fields plus `new Date().toLocaleTimeString()`. */
  datatype HistoryItem = HistoryItem(data: Api.SentimentReply, timestamp: string)

  /** `item.sentiment`: absent on an error body. */
  function Label(item: HistoryItem): (verdict: Option<string>)
    ensures verdict.Some? <==> item.data.Scored?
    ensures verdict.Some? ==> verdict.value == item.data.sentiment
  {
    if item.data.Scored? then Some(item.data.sentiment) else None
  }

  /** `history.filter(h => h.sentiment === verdict).length`. */
  function CountLabel(history: seq<HistoryItem>, verdict: string): (n: nat)
    ensures n <= |history|
  {
    if history == [] then 0
    else (if Label(history[0]) == Some(verdict) then 1 else 0) + CountLabel(history[1..], verdict)
  }

  /** The three summary counts together never exceed the number of entries:
      each entry has at most one verdict. */
  lemma {:induction false} SummaryBounded(history: seq<HistoryItem>)
    ensures CountLabel(history, "positive") + CountLabel(history, "neutral") + CountLabel(history, "negative") <= |history|
  {
    if history != [] {
      SummaryBounded(history[1..]);
    }
  }

  /** Counting after a prepend: the new entry adds one to its own verdict's count only. */
  lemma CountPrepend(item: HistoryItem, history: seq<HistoryItem>, verdict: string)
    ensures CountLabel([item] + history, verdict) == CountLabel(history, verdict) + (if Label(item) == Some(verdict) then 1 else 0)
  {
    assert ([item] + history)[1..] == history;
  }

  /** `item.text.substring(0, 80)`: the start of the text, at most 80 characters. */
  function Snippet(text: string): (r: string)
    ensures r <= text && |r| == Min(80, |text|)
    ensures |text| <= 80 <==> r == text
  {
    Slice(text, 80)
  }

  datatype Example = Example(text: string, kind: string)

  /** The four example buttons. */
  const Examples: seq<Example> := [
    Example("I love this product! It's amazing and works perfectly.", "positive"),
    Example("This is terrible. I'm very disappointed with the service.", "negative"),
    Example("The weather is cloudy today.", "neutral"),
    Example("The meeting went well but could have been better.", "mixed")
  ]

  /** Every example is something `handleAnalyze` will send: each ends in a
      full stop. */
  lemma ExamplesAreAnalyzable()
    ensures forall k :: 0 <= k < |Examples| ==> !AllJsSpace(Examples[k].text)
  {
    forall k | 0 <= k < |Examples| ensures !AllJsSpace(Examples[k].text) {
      var text := Examples[k].text;
      assert text[|text| - 1] == '.';
    }
  }

  class SentimentPage {
    var text: string
    /** The last answer, shown in the result card. */
    var sentiment: Option<Api.SentimentReply>
    /** All answers, newest first. */
    var history: seq<HistoryItem>
    /** Requests sent whose answer has not arrived. */
    var pending: nat

    constructor ()
      ensures text == "" && sentiment == None && history == [] && pending == 0
    {
      text, sentiment, history, pending := "", None, [], 0;
    }

    /** Typing in the text box, or `useExampleMessage`: the text becomes exactly `s`. */
    method SetText(s: string)
      modifies this
      ensures text == s
      ensures sentiment == old(sentiment) && history == old(history) && pending == old(pending)
    {
      text := s;
    }

    /**
     * `handleAnalyze` up to the request: nothing is sent for a blank text;
     * otherwise the body carries the text as typed, untrimmed.
     */
    method HandleAnalyze() returns (request: Option<Api.SentimentBody>)
      modifies this
      ensures request.None? <==> AllJsSpace(text)
      ensures request.Some? ==> request.value == Api.SentimentBody(Some(text))
      ensures pending == old(pending) + (if request.Some? then 1 else 0)
      ensures text == old(text) && sentiment == old(sentiment) && history == old(history)
    {
      TrimBlankIffAllSpace(text);
      if Trim(text) == "" {
        return None;
      }
      request := Some(Api.SentimentBody(Some(text)));
      pending := pending + 1;
    }

    /**
     * The answer of a request arrives. Any parsed body, whatever the status,
     * becomes the shown result and the newest history entry, and the text box
     * is cleared; the older entries follow unchanged. A thrown error (an
     * alert) changes nothing.
     */
    method Settle(response: Api.Fetched<Api.SentimentReply>, timestamp: string)
      requires pending > 0
      modifies this
      ensures pending == old(pending) - 1
      ensures response.Parsed? ==>
        && sentiment == Some(response.body) && text == ""
        && |history| == |old(history)| + 1
        && history[0] == HistoryItem(response.body, timestamp) && history[1..] == old(history)
      ensures response.Threw? ==> text == old(text) && sentiment == old(sentiment) && history == old(history)
    {
      pending := pending - 1;
      if response.Parsed? {
        sentiment := Some(response.body);
        history := [HistoryItem(response.body, timestamp)] + history;
        text := "";
      }
    }
  }

  /** Analysing an example from a fresh page: the example is sent verbatim,
      and a scored answer becomes the single history entry and one count. */
  method AnalyzeExample(k: nat, answer: Api.SentimentReply, timestamp: string)
    returns (request: Option<Api.SentimentBody>, history: seq<HistoryItem>)
    requires k < |Examples| && answer.Scored?
    ensures request == Some(Api.SentimentBody(Some(Examples[k].text)))
    ensures history == [HistoryItem(answer, timestamp)]
    ensures CountLabel(history, answer.sentiment) == 1
  {
    var page := new SentimentPage();
    page.SetText(Examples[k].text);
    ExamplesAreAnalyzable();
    request := page.HandleAnalyze();
    page.Settle(Api.Parsed(true, answer), timestamp);
    history := page.history;
    CountPrepend(HistoryItem(answer, timestamp), [], answer.sentiment);
  }
}
