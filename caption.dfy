/** The caption extraction of `processImage` (js/vision.js:42): the parsed
    response body is read along `description.captions[0].text`, every step of
    which may be missing or nullish, with "" as the default. Only the parts of
    the JSON body on that path are modelled, and `text` is taken to be a
    string when present. */
module Caption {
  import opened Wrappers

  /** An element of `captions`. */
  datatype CaptionEntry = CaptionEntry(text: Option<string>)

  /** The `description` object. */
  datatype Description = Description(captions: Option<seq<Option<CaptionEntry>>>)

  /** The parsed response body. */
  datatype Response = Response(description: Option<Description>)

  /** Every step of `description.captions[0].text` is present and not nullish. */
  predicate HasCaptionText(data: Option<Response>) {
    data.Some? && data.value.description.Some? &&
    data.value.description.value.captions.Some? &&
    |data.value.description.value.captions.value| > 0 &&
    data.value.description.value.captions.value[0].Some? &&
    data.value.description.value.captions.value[0].value.text.Some?
  }

  /** `data?.description?.captions?.[0]?.text ?? ""`, on a body that may
      itself be `null`: a missing step anywhere yields "", never a failure. */
  function ExtractCaption(data: Option<Response>): (caption: string)
    ensures !HasCaptionText(data) ==> caption == ""
    ensures HasCaptionText(data) ==>
              caption == data.value.description.value.captions.value[0].value.text.value
  {
    match data
    case None => ""
    case Some(response) =>
      match response.description
      case None => ""
      case Some(description) =>
        match description.captions
        case None => ""
        case Some(captions) =>
          if |captions| == 0 then ""
          else match captions[0]
            case None => ""
            case Some(entry) =>
              match entry.text
              case None => ""
              case Some(text) => text
  }

  /** A body whose first caption has text `text`, followed by any further entries. */
  function ResponseWith(text: string, more: seq<Option<CaptionEntry>>): Response {
    Response(Some(Description(Some([Some(CaptionEntry(Some(text)))] + more))))
  }

  /** Extraction returns the first caption's text verbatim, and no later
      caption has any influence on it. */
  lemma ExtractsFirstCaption(text: string, more: seq<Option<CaptionEntry>>)
    ensures ExtractCaption(Some(ResponseWith(text, more))) == text
  {
  }

  /** A non-empty result always comes from the full path: it is the text of
      the first caption. */
  lemma NonEmptyCaptionHasPath(data: Option<Response>)
    requires ExtractCaption(data) != ""
    ensures HasCaptionText(data)
    ensures data.value.description.value.captions.value[0] ==
            Some(CaptionEntry(Some(ExtractCaption(data))))
  {
  }
}
