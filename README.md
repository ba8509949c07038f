# Animal detector: page logic of `js/vision.js`

A browser page lets the user pick an image, shrinks it so that it fits in
1000 by 1000 pixels, sends it to a hosted image-captioning service, shows the
returned caption, and looks in that caption for the first name of a fixed
animal list. This project models the parts of `js/vision.js` that compute
something, and proves what they promise:

- `Resize` (`resize.dfy`): the dimension rule of `resizeImage`, over reals.
  `ResizeDimensions` reassigns the locals `width` and `height` branch by
  branch, as the source does, and is proved equal to the value-level rule
  `Resized`. Lemmas about `Resized` prove that the aspect ratio is exact,
  that neither axis grows, and that the dominant axis ends within its bound.
  They also prove that a square image takes the height branch, that the call
  site's 1000 by 1000 bound holds on both axes, and that resizing twice
  changes nothing.
- `AnimalScan` (`animal_scan.dfy`): the regular expression `\b<name>(s)?\b`
  with the `i` flag, written out. A word boundary is where a `[A-Za-z0-9_]`
  character meets a non-word character or an end of the string. Case is
  compared after ASCII lower-casing. `ScanAnimals` is the `for…of` loop with
  `break`, proved equal to `FirstMatch`. Lemmas about `FirstMatch` prove that
  it picks the first matching name in list order, or "" when no name
  matches. `Label` applies the `||` fallback "Animal not recognized".
- `Caption` (`caption.dfy`): the optional-chaining read of
  `description.captions[0].text`, with "" as the default, on a typed model of
  the JSON body in which every step is an `Option`.
- `Display` (`display.dfy`): the class `Page` holds the three values the
  handlers overwrite: the caption element, the label element and the canvas
  opacity. It has one method per handler: click, file selection, and the
  `try`/`catch` of `processImage`.

Three details of the code that the model keeps:

- File selection clears both text elements before the MIME-type check. A
  non-image selection therefore blanks them; it does not leave them alone.
- The `catch` branch writes only the caption. It does not restore the
  canvas opacity, so after an error the canvas stays hidden if a click hid it.
- The MIME check `type.match("image.*")` is an unanchored, case-sensitive
  search. It accepts any type that contains "image" anywhere.

## Model

| member | source | states |
|---|---|---|
| `Resize.ResizeDimensions` | js/vision.js:115-128 | the reassigned `width`/`height` equal the branch rule `Resized`; they keep the input's aspect ratio exactly and neither exceeds its input nor goes negative |
| `Resize.PreservesAspectRatio` | js/vision.js:118-128 | output width × input height = output height × input width on every branch |
| `Resize.NeverEnlarges` | js/vision.js:118-128 | 0 ≤ output width ≤ input width and 0 ≤ output height ≤ input height |
| `Resize.DominantAxisBounded` | js/vision.js:118-128 | a strictly wider image ends with width ≤ maxWidth; any other image ends with height ≤ maxHeight |
| `Resize.OtherBoundIgnored` | js/vision.js:118-128 | when the dominant axis already fits its bound, the size is returned unchanged whatever the other bound is |
| `Resize.SquareUsesHeightBound` | js/vision.js:118-128 | a square image is clamped to maxHeight on both axes when larger, and maxWidth plays no part |
| `Resize.CallSiteBounds` | js/vision.js:118-128 | with maxWidth = maxHeight = 1000, as passed at js/vision.js:28, both output axes are ≤ 1000 |
| `Resize.Idempotent` | js/vision.js:118-128 | resizing an already resized size returns it unchanged |
| `AnimalScan.ScanAnimals` | js/vision.js:45-54 | the loop with `break` leaves `animalName` equal to `FirstMatch`: the first list entry whose pattern matches, or "" |
| `AnimalScan.FirstMatchIsFirst` | js/vision.js:46-53 | an entry that matches, with no earlier entry matching, is the result |
| `AnimalScan.FirstMatchNone` | js/vision.js:45-54 | when no entry matches, the result is "" |
| `AnimalScan.FirstMatchSpec` | js/vision.js:45-54 | the result is "" or an entry of the list; a non-empty result matches, and no entry before it in the list matches |
| `AnimalScan.FirstOf` | js/vision.js:46-53 | when some entry matches, the result is an entry of the list that matches |
| `AnimalScan.WholeWordMatch` | js/vision.js:49-50 | defines `regex.test` of `\b<name>(s)?\b` with the `i` flag: some position has a boundary, the name up to case, then a boundary or one `s` and a boundary; a match needs room for the name and a non-empty caption |
| `AnimalScan.Label` | js/vision.js:55-56 | the label text is never empty; a non-empty scan result is shown as itself, and otherwise the text is "Animal not recognized" |
| `AnimalScan.LabelOfScan` | js/vision.js:45-56 | no match gives the fallback; any other label is the first matching entry; if the list holds neither "" nor the fallback text, the fallback appears exactly when nothing matches |
| `AnimalScan.EmptyCaptionNotRecognized` | js/vision.js:42-56 | an empty caption matches no name, so its label is "Animal not recognized" |
| `AnimalScan.WordOccurrenceMatches` | js/vision.js:49 | a plain word with a non-word character or a string end on each side matches its name, alone or followed by one `s` |
| `AnimalScan.MatchIgnoresCase` | js/vision.js:49 | lower-casing the caption or the name does not change whether it matches |
| `AnimalScan.CatsMatchesCat` | js/vision.js:49 | "Cats" matches `cat` |
| `AnimalScan.BobcatDoesNotMatchCat` | js/vision.js:49 | "bobcat" does not match `cat` |
| `AnimalScan.CatsupDoesNotMatchCat` | js/vision.js:49 | "catsup" does not match `cat` |
| `AnimalScan.SingularCaptionLabel` | js/vision.js:45-56 | caption "A cat sitting on a table" with list [cat] gives label `cat` |
| `AnimalScan.PluralCaptionLabel` | js/vision.js:45-56 | caption "A group of cats" with list [cat] gives label `cat` |
| `AnimalScan.ListOrderDecides` | js/vision.js:45-54 | with list [dog, cat], "A cat chasing a dog" gives `dog`: list order decides, not text order |
| `Caption.ExtractCaption` | js/vision.js:42 | a missing or nullish body, `description`, `captions`, element 0 or `text` gives ""; otherwise the result is that text |
| `Caption.ExtractsFirstCaption` | js/vision.js:42 | a body whose first caption has text t yields exactly t, whatever further captions follow |
| `Caption.NonEmptyCaptionHasPath` | js/vision.js:42 | a non-empty result implies the whole path is present and element 0 holds exactly that text |
| `Display.Page.constructor` | js/vision.js:6-8 | at page load the canvas opacity is 0 and the text elements keep their markup |
| `Display.Page.Click` | js/vision.js:102-104 | a click sets opacity to 0 and changes nothing else |
| `Display.Page.SelectFile` | js/vision.js:66-75 | both texts are cleared unconditionally; processing continues exactly when a file exists and its type contains "image" |
| `Display.Page.ProcessImage` | js/vision.js:42-63 | success writes the extracted caption, the scan's label and opacity 1; an exception writes "Error processing image: " + error and leaves the label and the opacity unchanged |
| `Display.Page.SelectAndProcess` | js/vision.js:66-95 | a non-image, or an image whose processing never finishes (an undecodable file, a request that never settles), leaves both texts blank and the opacity as it was; a failure after an image leaves the label blank; a success always leaves a non-empty label and opacity 1 |
| `Display.IsImageType` | js/vision.js:75 | defines `file.type.match("image.*")` as "image" occurring at some position of the type, so a passing type has at least five characters |
| `Display.ImageTypeExamples` | js/vision.js:75 | "image/png" passes the MIME check and "text/plain" does not |
| `Display.ImageAnywhere` | js/vision.js:75 | any type containing "image" anywhere passes the MIME check |

## Left out

- The network call: the endpoint and query string (`URLSearchParams`), the headers, the key and endpoint read from `process.env` by `dotenv` (js/vision.js:2-3, 16-40). What the call produces enters `Display.Page.ProcessImage` as a parameter: a parsed body or an exception's text.
- `FileReader`, `Image` decoding, `URL.createObjectURL`, canvas drawing and `toBlob` with JPEG quality 0.7 (js/vision.js:77-94, 110-113, 130-145). These are browser behaviour that the code does not show. A selected file that does not decode never reaches `processImage`, because `reader` and `img` have no error handler there (js/vision.js:77-92); `Display.Page.SelectAndProcess` models this as processing that never finishes, with both texts blank and the opacity unchanged. Only the resize step's decode failure reaches the `catch` (js/vision.js:145), as an exception whose text is "[object Event]".
- Floating-point rounding in the resize, and the truncation when fractional sizes are assigned to `canvas.width`/`canvas.height` (js/vision.js:120, 125, 131-132). The rule is modelled over exact reals.
- `Resize.ResizeDimensions`: requires non-negative image sizes and positive bounds. The source never checks these. Its only call passes 1000 and 1000, and image sizes are never negative.
- The one-second `setTimeout` that sets the opacity to 1 after page load (js/vision.js:10-12). It is a timer effect and purely cosmetic.
- Interleavings: a second selection while a request is still pending, and a late response overwriting newer content. Each method here runs to completion, one after another.
- HTML interpretation of `innerHTML`: the writes are plain string assignments.
- Regular-expression metacharacters in animal names. Each name is put into the pattern unescaped, and `animals.js` is not part of this model. Names are taken as literal text.
- Unicode case folding and the Unicode `\b`: only ASCII letters change case, and only `[A-Za-z0-9_]` are word characters.
- A `text` in the response that is not a string (a number, an object): the model types it as a string.
- An empty file list: the source clears both texts and then throws reading `type` of `undefined`. The model clears them and reports that processing does not continue. It does not model the uncaught exception.
