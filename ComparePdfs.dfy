/**
 * The compare page (fe/src/pages/ComparePDFs.jsx): a text box of PDF URLs,
 * one per line, a file picker, and the result or error of the last
 * comparison. Submitting sends the chosen files as a multipart form if there
 * are any, otherwise the parsed URL list as JSON.
 */
module ComparePdfs {
  import opened Wrappers
  import opened Text
  import Api

  // ---------------------------------------------------------- URL parsing

  /** `lines.map(u => u.trim()).filter(u => u.length > 0)`. */
  function TrimNonEmpty(lines: seq<string>): (r: seq<string>)
    ensures |r| <= |lines|
  {
    if lines == [] then []
    else
      var t := Trim(lines[0]);
      (if t == "" then [] else [t]) + TrimNonEmpty(lines[1..])
  }

  /** `pdfUrls.split("\n").map(u => u.trim()).filter(u => u.length > 0)`. */
  function ParseUrls(text: string): (urls: seq<string>)
    ensures |urls| <= |Split(text, '\n')|
  {
    TrimNonEmpty(Split(text, '\n'))
  }

  function Shift(ns: seq<nat>): (r: seq<nat>)
    ensures |r| == |ns| && forall j :: 0 <= j < |ns| ==> r[j] == ns[j] + 1
  {
    seq(|ns|, j requires 0 <= j < |ns| => ns[j] + 1)
  }

  /** The numbers of the lines `TrimNonEmpty` keeps, in order. */
  function Picks(lines: seq<string>): (idx: seq<nat>)
    ensures |idx| == |TrimNonEmpty(lines)|
  {
    if lines == [] then []
    else (if Trim(lines[0]) == "" then [] else [0]) + Shift(Picks(lines[1..]))
  }

  /** Each parsed URL is the trimmed line that `Picks` names for it. */
  lemma {:induction false} PicksMatch(lines: seq<string>)
    ensures forall j :: 0 <= j < |Picks(lines)| ==>
      Picks(lines)[j] < |lines| && TrimNonEmpty(lines)[j] == Trim(lines[Picks(lines)[j]])
  {
    if lines != [] {
      PicksMatch(lines[1..]);
      var rest, tail := Picks(lines[1..]), TrimNonEmpty(lines[1..]);
      var off := if Trim(lines[0]) == "" then 0 else 1;
      var idx, r := Picks(lines), TrimNonEmpty(lines);
      assert r == (if off == 0 then [] else [Trim(lines[0])]) + tail;
      forall j | 0 <= j < |rest|
        ensures idx[j + off] == rest[j] + 1 && r[j + off] == Trim(lines[idx[j + off]])
      {
        assert lines[1..][rest[j]] == lines[rest[j] + 1];
      }
      forall j | 0 <= j < |idx| ensures idx[j] < |lines| && r[j] == Trim(lines[idx[j]]) {
        if j >= off {
          assert idx[j] == rest[j - off] + 1;
        }
      }
    }
  }

  /** `Picks` names the lines in increasing order. */
  lemma {:induction false} PicksIncrease(lines: seq<string>)
    ensures forall j :: 0 < j < |Picks(lines)| ==> Picks(lines)[j - 1] < Picks(lines)[j]
  {
    if lines != [] {
      PicksIncrease(lines[1..]);
      var rest := Picks(lines[1..]);
      var off := if Trim(lines[0]) == "" then 0 else 1;
      var idx := Picks(lines);
      forall j | 0 < j < |idx| ensures idx[j - 1] < idx[j] {
        assert idx[j] == rest[j - off] + 1;
        if j - 1 >= off {
          assert idx[j - 1] == rest[j - 1 - off] + 1;
        }
      }
    }
  }

  /** `Picks` names every line that is not blank. */
  lemma {:induction false} PicksComplete(lines: seq<string>)
    ensures forall i :: 0 <= i < |lines| && Trim(lines[i]) != "" ==> i in Picks(lines)
  {
    if lines != [] {
      PicksComplete(lines[1..]);
      var rest := Picks(lines[1..]);
      var off := if Trim(lines[0]) == "" then 0 else 1;
      var idx := Picks(lines);
      forall i | 0 <= i < |lines| && Trim(lines[i]) != "" ensures i in idx {
        if i == 0 {
          assert idx[0] == 0;
        } else {
          assert lines[1..][i - 1] == lines[i];
          var j :| 0 <= j < |rest| && rest[j] == i - 1;
          assert idx[j + off] == i;
        }
      }
    }
  }

  /**
   * The parsed URLs are the trimmed non-blank lines, in line order: `idx`
   * names, for each URL, the line it came from; the line numbers increase,
   * and every line that is not blank is named.
   */
  lemma TrimNonEmptyPicks(lines: seq<string>) returns (idx: seq<nat>)
    ensures |idx| == |TrimNonEmpty(lines)|
    ensures forall j :: 0 <= j < |idx| ==> idx[j] < |lines| && TrimNonEmpty(lines)[j] == Trim(lines[idx[j]])
    ensures forall j :: 0 < j < |idx| ==> idx[j - 1] < idx[j]
    ensures forall i :: 0 <= i < |lines| && Trim(lines[i]) != "" ==> i in idx
  {
    idx := Picks(lines);
    PicksMatch(lines);
    PicksIncrease(lines);
    PicksComplete(lines);
  }

  /** Every parsed URL is non-empty and has no whitespace at either end. */
  lemma {:induction false} TrimNonEmptyClean(lines: seq<string>)
    ensures forall j :: 0 <= j < |TrimNonEmpty(lines)| ==>
      TrimNonEmpty(lines)[j] != "" && IsTrimmed(TrimNonEmpty(lines)[j])
  {
    if lines != [] {
      TrimNonEmptyClean(lines[1..]);
      var _ := TrimIsInfix(lines[0]);
    }
  }

  /** There are at most as many URLs as lines: one more than the newlines. */
  lemma ParseUrlsCount(text: string)
    ensures |ParseUrls(text)| <= Occurrences(text, '\n') + 1
  {
    SplitCount(text, '\n');
  }

  /** Every line of an all-whitespace text is all whitespace. */
  lemma {:induction false} SplitKeepsBlank(s: string, sep: char)
    requires AllJsSpace(s)
    ensures forall k :: 0 <= k < |Split(s, sep)| ==> AllJsSpace(Split(s, sep)[k])
    decreases |s|
  {
    if s != [] {
      assert AllJsSpace(s[1..]) by {
        forall k | 0 <= k < |s| - 1 ensures IsJsSpace(s[1..][k]) {
          assert s[1..][k] == s[k + 1];
        }
      }
      SplitKeepsBlank(s[1..], sep);
      var tail := Split(s[1..], sep);
      if s[0] != sep {
        assert AllJsSpace([s[0]] + tail[0]) by {
          forall k | 0 <= k < 1 + |tail[0]| ensures IsJsSpace(([s[0]] + tail[0])[k]) {
            if k > 0 {
              assert ([s[0]] + tail[0])[k] == tail[0][k - 1];
            }
          }
        }
        forall k | 0 <= k < |Split(s, sep)| ensures AllJsSpace(Split(s, sep)[k]) {
          if k > 0 {
            assert Split(s, sep)[k] == tail[k];
          }
        }
      } else {
        forall k | 0 <= k < |Split(s, sep)| ensures AllJsSpace(Split(s, sep)[k]) {
          if k > 0 {
            assert Split(s, sep)[k] == tail[k - 1];
          }
        }
      }
    }
  }

  /** Lines that are all whitespace all drop out. */
  lemma {:induction false} TrimNonEmptyBlank(lines: seq<string>)
    requires forall k :: 0 <= k < |lines| ==> AllJsSpace(lines[k])
    ensures TrimNonEmpty(lines) == []
  {
    if lines != [] {
      TrimBlankIffAllSpace(lines[0]);
      TrimNonEmptyBlank(lines[1..]);
    }
  }

  /** A text of nothing but whitespace and newlines yields no URL at all. */
  lemma ParseUrlsBlank(text: string)
    requires AllJsSpace(text)
    ensures ParseUrls(text) == []
  {
    SplitKeepsBlank(text, '\n');
    TrimNonEmptyBlank(Split(text, '\n'));
  }

  // ------------------------------------------------------------ the form

  /** The fields of the multipart form: one `"files"` entry per file, in order. */
  function FormFields(files: seq<Api.PdfFile>): (r: seq<Api.FormField>)
    ensures |r| == |files|
    ensures forall i :: 0 <= i < |files| ==> r[i] == Api.FormField("files", files[i])
  {
    seq(|files|, i requires 0 <= i < |files| => Api.FormField("files", files[i]))
  }

  /** The `formData.append("files", files[i])` loop. */
  method BuildFormData(files: seq<Api.PdfFile>) returns (fields: seq<Api.FormField>)
    ensures fields == FormFields(files)
  {
    fields := [];
    var i := 0;
    while i < |files|
      invariant 0 <= i <= |files|
      invariant fields == FormFields(files[..i])
    {
      fields := fields + [Api.FormField("files", files[i])];
      i := i + 1;
      assert files[..i] == files[..i - 1] + [files[i - 1]];
    }
    assert files[..|files|] == files;
  }

  /**
   * The request `handleSubmit` sends, if any: chosen files win over the URL
   * text; a non-empty URL text, even an all-whitespace one, is sent as a
   * JSON list; with neither, nothing is sent.
   */
  function SubmitRequest(files: seq<Api.PdfFile>, pdfUrls: string): (req: Option<Api.PdfRequest>)
    ensures req.None? <==> files == [] && pdfUrls == ""
    ensures files != [] ==> req == Some(Api.Multipart(FormFields(files)))
    ensures files == [] && pdfUrls != "" ==> req == Some(Api.JsonUrls(Some(ParseUrls(pdfUrls))))
  {
    if |files| > 0 then Some(Api.Multipart(FormFields(files)))
    else if pdfUrls != "" then Some(Api.JsonUrls(Some(ParseUrls(pdfUrls))))
    else None
  }

  // ---------------------------------------------------------- the answer

  /** JavaScript's `a || b` on an optional string: `b` when `a` is missing or "". */
  function OrElse(a: Option<string>, b: string): (r: string)
    ensures a.Some? && a.value != "" ==> r == a.value
    ensures a.None? || a.value == "" ==> r == b
  {
    if a.Some? && a.value != "" then a.value else b
  }

  const FallbackError := "Something went wrong"
  const ConnectError := "Error connecting to backend"

  class ComparePage {
    /** The URL text box. */
    var pdfUrls: string
    /** The files chosen in the picker. */
    var files: seq<Api.PdfFile>
    var result: string
    var error: string
    /** A request is outstanding; the submit button is disabled. */
    var loading: bool

    constructor ()
      ensures pdfUrls == "" && files == [] && result == "" && error == "" && !loading
    {
      pdfUrls, files, result, error, loading := "", [], "", "", false;
    }

    /** Typing in the URL box. */
    method SetUrls(text: string)
      modifies this
      ensures pdfUrls == text
      ensures files == old(files) && result == old(result) && error == old(error) && loading == old(loading)
    {
      pdfUrls := text;
    }

    /** `handleFileChange`: the picker's whole selection replaces the files. */
    method ChooseFiles(chosen: seq<Api.PdfFile>)
      modifies this
      ensures files == chosen
      ensures pdfUrls == old(pdfUrls) && result == old(result) && error == old(error) && loading == old(loading)
    {
      files := chosen;
    }

    /**
     * `handleSubmit` up to the request (the button is disabled while
     * loading): result and error are cleared; the request sent, if any, is
     * `SubmitRequest` of the files and URL text, and `loading` stays set
     * exactly when one was sent.
     */
    method HandleSubmit() returns (req: Option<Api.PdfRequest>)
      requires !loading
      modifies this
      ensures req == SubmitRequest(files, pdfUrls)
      ensures result == "" && error == "" && loading == req.Some?
      ensures pdfUrls == old(pdfUrls) && files == old(files)
    {
      loading, result, error := true, "", "";
      if |files| > 0 {
        var fields := BuildFormData(files);
        req := Some(Api.Multipart(fields));
      } else if pdfUrls != "" {
        req := Some(Api.JsonUrls(Some(ParseUrls(pdfUrls))));
      } else {
        // the page alerts and sends nothing
        loading := false;
        req := None;
      }
    }

    /**
     * The outstanding request settles and `loading` ends. An ok answer shows
     * its result, or the whole answer when it has none; any other answer
     * shows its error or the fallback message; a thrown error shows the
     * connection message.
     */
    method Settle(outcome: Api.Fetched<Api.CompareJson>)
      requires loading && result == "" && error == ""
      modifies this
      ensures !loading
      ensures outcome.Parsed? && outcome.ok ==>
        result == OrElse(outcome.body.result, outcome.body.dump) && error == ""
      ensures outcome.Parsed? && !outcome.ok ==>
        error == OrElse(outcome.body.error, FallbackError) && error != "" && result == ""
      ensures outcome.Threw? ==> error == ConnectError && result == ""
      ensures pdfUrls == old(pdfUrls) && files == old(files)
    {
      match outcome {
        case Parsed(ok, data) =>
          if ok {
            result := OrElse(data.result, data.dump);
          } else {
            error := OrElse(data.error, FallbackError);
          }
        case Threw =>
          error := ConnectError;
      }
      loading := false;
    }
  }
}
