/** The part of `extract_text` that is not the OCR engine: the engine's
    detections for the first page are reduced to their recognised text
    lines, which are joined with newlines in the order the engine returned
    them. */
module OcrText {
  import opened Strings

  /** One detection of the engine: a bounding region, and the recognised
      line with its confidence score. */
  datatype Detection = Detection(box: seq<(real, real)>, text: Str, confidence: real)

  /** The recognised lines, in detection order. */
  function Lines(page: seq<Detection>): (lines: seq<Str>)
    ensures |lines| == |page|
    ensures forall k :: 0 <= k < |page| ==> lines[k] == page[k].text
  {
    seq(|page|, k requires 0 <= k < |page| => page[k].text)
  }

  /** `"\n".join(line[1][0] for line in result[0])`. */
  function ExtractText(page: seq<Detection>): (text: Str)
    ensures page == [] ==> text == []
  {
    Join(Lines(page), '\n')
  }

  /** The text keeps every line and their order: when no recognised line
      holds a newline itself, splitting the text at newlines gives back
      exactly the lines of the detections. */
  lemma LinesAreRecoverable(page: seq<Detection>)
    requires page != []
    requires forall k :: 0 <= k < |page| ==> '\n' !in page[k].text
    ensures Split(ExtractText(page), '\n') == Lines(page)
  {
    SplitJoin(Lines(page), '\n');
  }
}
