/** The page state the event handlers of js/vision.js overwrite: the caption
    element (`#AIresponse`), the label element (`#animalName`) and the
    canvas opacity used as a loading indicator. Reading the file, decoding
    and resizing the image and the network call are not modelled: what they
    produce reaches `ProcessImage` as a `FetchOutcome`. */
module Display {
  import opened Wrappers
  import opened AnimalScan
  import opened Caption

  /** Prefix of the message written to the caption element when the pipeline throws (js/vision.js:62). */
  const ErrorPrefix: string := "Error processing image: "

  /** `type.match("image.*")`: an unanchored, case-sensitive regular
      expression, so it holds exactly when "image" occurs anywhere in the
      MIME type. */
  predicate IsImageType(mime: string)
    ensures IsImageType(mime) ==> |mime| >= 5
  {
    exists i :: 0 <= i && i + 5 <= |mime| && ImageAt(mime, i)
  }

  predicate ImageAt(mime: string, i: int)
    requires 0 <= i && i + 5 <= |mime|
  {
    mime[i..i + 5] == "image"
  }

  /** How the awaited part of `processImage` ended: with a parsed response
      body, or with an exception whose string form is `error` (a failed
      `fetch`, a body that is not JSON, or the resize step's own decode
      failing, whose rejection value prints as "[object Event]"). A selected
      file that does not decode in the first place never reaches
      `processImage`: no handler listens for that error. */
  datatype FetchOutcome = Responded(data: Option<Response>) | Threw(error: string)

  class Page {
    /** `innerHTML` of `#AIresponse`, as plain text. */
    var caption: string
    /** `innerHTML` of `#animalName`, as plain text. */
    var animalName: string
    /** `canvas.style.opacity`. */
    var opacity: int


    /** DOMContentLoaded: the canvas starts hidden; the two text elements hold
        whatever the page's markup put there. */
    constructor (initialCaption: string, initialLabel: string)
      ensures caption == initialCaption && animalName == initialLabel && opacity == 0
    {
      caption := initialCaption;
      animalName := initialLabel;
      opacity := 0;
    }

    /** A click on the file input hides the canvas and touches nothing else. */
    method Click()
      modifies this`opacity
      ensures opacity == 0
    {
      opacity := 0;
    }

    /** `handleFileSelect`: both text elements are cleared first, whatever is
        selected; processing goes on only when a file was selected and its
        MIME type contains "image". With no file at all the handler stops
        after the clearing (reading `type` of `undefined` throws). */
    method SelectFile(fileTypes: seq<string>) returns (proceeds: bool)
      modifies this`caption, this`animalName
      ensures caption == "" && animalName == ""
      ensures proceeds <==> |fileTypes| > 0 && IsImageType(fileTypes[0])
    {
      animalName := "";
      caption := "";
      proceeds := |fileTypes| > 0 && IsImageType(fileTypes[0]);
    }

    /** The `try`/`catch` of `processImage`. On a response the caption is
        written, the scan runs, the label is written and the canvas shown. On
        an exception only the caption changes: the label keeps its value and
        the canvas keeps its opacity. */
    method ProcessImage(outcome: FetchOutcome, animals: seq<string>)
      modifies this`caption, this`animalName, this`opacity
      ensures outcome.Responded? ==>
        caption == ExtractCaption(outcome.data) &&
        animalName == Label(FirstMatch(caption, animals)) &&
        opacity == 1
      ensures outcome.Threw? ==>
        caption == ErrorPrefix + outcome.error &&
        animalName == old(animalName) && opacity == old(opacity)
    {
      match outcome
      case Responded(data) =>
        var fullCaption := ExtractCaption(data);
        caption := fullCaption;
        var found := ScanAnimals(fullCaption, animals);
        animalName := Label(found);
        opacity := 1;
      case Threw(error) =>
        caption := ErrorPrefix + error;
    }

    /** One selection followed, when it proceeds, by the end of its own
        processing, with no other event in between. `finished` is `None`
        when processing never ends: the selected file does not decode (no
        handler listens for that error) or the request never settles. */
    method SelectAndProcess(fileTypes: seq<string>, finished: Option<FetchOutcome>, animals: seq<string>)
      modifies this`caption, this`animalName, this`opacity
      ensures !(|fileTypes| > 0 && IsImageType(fileTypes[0])) || finished.None? ==>
        caption == "" && animalName == "" && opacity == old(opacity)
      ensures |fileTypes| > 0 && IsImageType(fileTypes[0]) && finished.Some? && finished.value.Threw? ==>
        caption == ErrorPrefix + finished.value.error && animalName == "" && opacity == old(opacity)
      ensures |fileTypes| > 0 && IsImageType(fileTypes[0]) && finished.Some? && finished.value.Responded? ==>
        caption == ExtractCaption(finished.value.data) &&
        animalName == Label(FirstMatch(caption, animals)) && animalName != "" &&
        opacity == 1
    {
      var proceeds := SelectFile(fileTypes);
      if proceeds && finished.Some? {
        ProcessImage(finished.value, animals);
      }
    }
  }

  /** "image/png" passes the MIME check and "text/plain" does not. */
  lemma ImageTypeExamples()
    ensures IsImageType("image/png")
    ensures !IsImageType("text/plain")
  {
    assert ImageAt("image/png", 0);
    var t := "text/plain";
    forall i | 0 <= i && i + 5 <= |t| ensures !ImageAt(t, i) {
      assert t[i] != 'i';
    }
  }

  /** The check is a substring test: any type with "image" somewhere in it
      passes, whatever surrounds it. */
  lemma ImageAnywhere(before: string, after: string)
    ensures IsImageType(before + "image" + after)
  {
    var t := before + "image" + after;
    assert ImageAt(t, |before|);
  }

  /** A non-image selection empties both text elements and starts nothing. */
  method TextFileScenario()
  {
    var page := new Page("old caption", "cat");
    var proceeds := page.SelectFile(["text/plain"]);
    ImageTypeExamples();
    assert !proceeds;
    assert page.caption == "" && page.animalName == "";
  }

  /** A failed fetch after an image selection shows the error text, and the
      label stays as the clearing left it. */
  method FetchFailureScenario()
  {
    var page := new Page("", "");
    page.Click();
    var proceeds := page.SelectFile(["image/jpeg"]);
    assert ImageAt("image/jpeg", 0);
    assert proceeds;
    page.ProcessImage(Threw("TypeError: failed to fetch"), ["cat"]);
    assert page.caption == ErrorPrefix + "TypeError: failed to fetch";
    assert page.animalName == "" && page.opacity == 0;
  }
}
