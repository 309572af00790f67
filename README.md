# AI image and caption generator: a model in Dafny

The application has three parts.

- The React home page (`App`) lets a user do four things:
  - generate an image from a prompt;
  - upload an image or re-use the generated one;
  - have the image captioned, with one ready-made social-media post per platform;
  - ask for SEO tags for the uploaded file.
- The Flask backend builds the posts, the SEO file name, the keywords and the SEO tags. It also rejects incomplete requests with status 400.
- A contact form simulates its submission with a 2 s timer and then a 3 s timer.

The project models these three parts and proves what each promises.

Modules:

- `Common`: `Option`, and opaque image bytes (`Blob`) in a named `File`.
- `PyText`: the Python string library used by the backend, restricted to ASCII for `lower` and `\w`:
  - `str.isspace` / `\s`;
  - `lower`;
  - `strip`;
  - `rfind`;
  - `join`;
  - `os.path.splitext` on POSIX paths.
- `Backend`:
  - `create_social_posts`, `seo_friendly_filename`, `generate_seo_data` (keywords and the eight tags);
  - the three routes, down to their 400 branches.
  - The diffusion model and the captioning model are function parameters.
- `HomeWorkflow`: every home-page handler as a function on the state record, the ten `useState` hooks plus the requests in flight. Each async handler is split in two:
  - a *dispatch* step: the guard and the writes before its `await`;
  - a *resolve* step, applied to the reply. A reply is a parsed body, a body missing the field, or a thrown error.
  - The `setCaptionLoading(false)` after the awaited re-caption (App.jsx:98) writes the value `ResolveCaption` has just written, so it is folded into `ResolveCaption` rather than being a step of its own.
- `HomeTraces`: runs of events, in which any request in flight may be answered at any time.
  - It covers the invariants that every run keeps, which fields each event may write, and concrete interleavings.
  - Last writer wins: there is no busy gate and no stale reply is discarded.
- `AppComponent`: class `App` with one field per hook. It has one method per handler and per resolve point.
  - Each method writes the fields in the handler's order.
  - Each is proved to make its `HomeWorkflow` step and to keep the run invariant.
- `ContactWorkflow` and `ContactComponent`: the contact form, as a state machine and as a class. Each timer firing is an event, and the timers not yet fired are counted in the state.
- `EndToEnd`: the request body each client call builds, the backend's reply, and what `res.json()` gives back to the client.

## Model

| member | source | states |
|---|---|---|
| HomeWorkflow.RenderPage | final/mainpro/src/App.jsx:28-37 | "about" selects About and "contact" selects Contact; every other value renders the home page (each as an if-and-only-if) |
| HomeWorkflow.ToggleTheme | final/mainpro/src/App.jsx:26 | `darkMode` is negated and no other field changes |
| HomeWorkflow.ToggleTwice | final/mainpro/src/App.jsx:26 | toggling the theme twice restores the state |
| HomeWorkflow.SetPrompt | final/mainpro/src/App.jsx:9 | the prompt setter: `prompt` becomes the text and no other field changes |
| HomeWorkflow.Navigate | final/mainpro/src/App.jsx:149-159 | `setCurrentPage(page)`: `currentPage` becomes the page and no other field changes |
| HomeWorkflow.NavigateRenders | final/mainpro/src/App.jsx:149-151 | each navigation button's page name renders that page |
| HomeWorkflow.GenerateImage | final/mainpro/src/App.jsx:40-50 | an empty prompt changes nothing and sends nothing; otherwise `loading` goes on, caption and posts are cleared to "" and {}, and one request for the prompt is sent; the SEO data, the uploaded file, the displayed image and every other field stay |
| HomeWorkflow.ResolveImage | final/mainpro/src/App.jsx:51-61 | a truthy `image` is shown as "data:image/png;base64," + image; a reply without it, or a throw, keeps the old picture; `loading` is false afterwards in every case; only that request leaves the set in flight; nothing else changes |
| HomeWorkflow.CaptionAndPost | final/mainpro/src/App.jsx:64-73 | without a file nothing changes and nothing is sent; otherwise `captionLoading` goes on and that file is sent, and nothing else changes |
| HomeWorkflow.ResolveCaption | final/mainpro/src/App.jsx:74-81 | a parsed body's `caption` and `posts` are stored verbatim, a missing field included; a throw keeps both; `captionLoading` is false afterwards; nothing else changes |
| HomeWorkflow.Upload | final/mainpro/src/App.jsx:84-89 | the file is recorded, its object URL becomes the displayed image, and captioning of that same file is dispatched; caption, posts and SEO data are not cleared; with no file only `uploadedFile` is written |
| HomeWorkflow.CaptionGeneratedImage | final/mainpro/src/App.jsx:91-94 | without a displayed image nothing changes; otherwise `captionLoading` goes on and the displayed URL is re-fetched, and nothing else changes |
| HomeWorkflow.ResolveBlob | final/mainpro/src/App.jsx:94-98 | the fetched bytes, named "generated.png", go on to captioning; a rejection ends the handler with `captionLoading` left as it was |
| HomeWorkflow.GenerateSeo | final/mainpro/src/App.jsx:101-111 | refused, with no change, unless a file was uploaded and the caption is non-empty; otherwise exactly one request is added, carrying the uploaded file with the current caption as `alt_text` |
| HomeWorkflow.ResolveSeo | final/mainpro/src/App.jsx:112-117 | a parsed body is stored verbatim in `seoMetadata`; a throw keeps the old value; nothing else changes but the request leaving the set in flight |
| HomeWorkflow.RefusalsAlert | final/mainpro/src/App.jsx:41-102 | each guarded handler (image, caption, SEO) alerts exactly when it leaves the state unchanged; the alerts are `ImageDispatchAlert`, `CaptionDispatchAlert` and `SeoDispatchAlert`, and the reply alerts `ImageResolveAlert`, `CaptionResolveAlert` and `SeoResolveAlert` (App.jsx:55, 59, 79, 116) are stated in the `App` rows below |
| AppComponent.App.constructor | final/mainpro/src/App.jsx:9-18 | the first render: every hook at its initial value, and the run invariant holds |
| AppComponent.App.SetPrompt | final/mainpro/src/App.jsx:9 | the prompt setter makes the SetPrompt step (only `prompt` changes) and keeps the invariant |
| AppComponent.App.ToggleTheme | final/mainpro/src/App.jsx:26 | makes the ToggleTheme step and keeps the invariant |
| AppComponent.App.Navigate | final/mainpro/src/App.jsx:149-159 | `setCurrentPage(page)`: makes the Navigate step (only `currentPage` changes) and keeps the invariant |
| AppComponent.App.HandleGenerateImage | final/mainpro/src/App.jsx:40-50 | makes the GenerateImage step, keeps the invariant, and returns the "Enter a prompt!" alert exactly when the prompt is empty |
| AppComponent.App.ResolveGenerateImage | final/mainpro/src/App.jsx:51-61 | makes the ResolveImage step, keeps the invariant, and returns "Image generation failed." for a reply without an image and "API error." for a throw |
| AppComponent.App.HandleCaptionAndPost | final/mainpro/src/App.jsx:64-73 | makes the CaptionAndPost step, keeps the invariant, and alerts exactly when there is no file |
| AppComponent.App.ResolveCaptionAndPost | final/mainpro/src/App.jsx:74-81 | makes the ResolveCaption step, keeps the invariant, and alerts "Captioning failed." exactly on a throw |
| AppComponent.App.HandleUpload | final/mainpro/src/App.jsx:84-89 | makes the Upload step, calling HandleCaptionAndPost with the same file, and keeps the invariant |
| AppComponent.App.HandleCaptionGeneratedImage | final/mainpro/src/App.jsx:91-94 | makes the CaptionGeneratedImage step and keeps the invariant |
| AppComponent.App.ResolveRefetch | final/mainpro/src/App.jsx:94-98 | makes the ResolveBlob step, handing fetched bytes to HandleCaptionAndPost, and keeps the invariant |
| AppComponent.App.HandleGenerateSeo | final/mainpro/src/App.jsx:101-111 | makes the GenerateSeo step, keeps the invariant, and alerts exactly when it refuses |
| AppComponent.App.ResolveGenerateSeo | final/mainpro/src/App.jsx:112-117 | makes the ResolveSeo step, keeps the invariant, and alerts "SEO generation failed." exactly on a throw |
| HomeTraces.InitialInv | final/mainpro/src/App.jsx:9-18 | the first render satisfies the run invariant |
| HomeTraces.StepInv | final/mainpro/src/App.jsx:40-118 | every event keeps the invariant: the image spinner is on only while an image request is in flight; every image request in flight has a non-empty prompt; every SEO request in flight has a non-empty alt text |
| HomeTraces.RunInv | final/mainpro/src/App.jsx:40-118 | the invariant holds after every run of events |
| HomeTraces.SpinnerOffWhenIdle | final/mainpro/src/App.jsx:42-61 | from the first render, `loading` is off whenever no image request is in flight |
| HomeTraces.StepCaptionInv | final/mainpro/src/App.jsx:64-99 | every event except a failed re-fetch keeps the caption spinner on only while a caption request or a re-fetch is in flight |
| HomeTraces.RunCaptionInv | final/mainpro/src/App.jsx:64-99 | that caption-spinner invariant survives every run without a failed re-fetch |
| HomeTraces.CaptionSpinnerOffWhenIdle | final/mainpro/src/App.jsx:64-99 | from the first render, and without a failed re-fetch, `captionLoading` is off whenever no caption request and no re-fetch is in flight |
| HomeTraces.SeoWrittenOnlyBySeoReply | final/mainpro/src/App.jsx:113 | only a parsed SEO reply writes `seoMetadata`, and it writes exactly the reply's body; a new image or upload never clears it |
| HomeTraces.UploadWrittenOnlyByFileChoice | final/mainpro/src/App.jsx:86 | only choosing a file writes `uploadedFile`, and it writes that file |
| HomeTraces.CaptionWrittenOnlyByReplyOrGenerate | final/mainpro/src/App.jsx:43-76 | the caption changes only through a parsed caption reply or an image request that was actually sent |
| HomeTraces.ImageWrittenOnlyByReplyOrUpload | final/mainpro/src/App.jsx:53-87 | the displayed image changes only through a truthy image reply or a chosen file |
| HomeTraces.StaleCaptionWins | final/mainpro/src/App.jsx:74-88 | two uploads whose caption replies arrive in reverse order leave the second file uploaded and displayed, with the first file's caption and posts shown |
| HomeTraces.SpinnerOffWhileImageInFlight | final/mainpro/src/App.jsx:40-61 | a second image request can be sent while the first is in flight, and the first reply turns the spinner off while the other is still outstanding |
| HomeTraces.FailedRefetchLeavesSpinner | final/mainpro/src/App.jsx:91-98 | a failed re-fetch leaves the caption spinner on and the set in flight as it was; when no caption request or re-fetch was in flight before, the spinner is then on with nothing in flight that could turn it off (the caption-spinner invariant is broken) |
| Backend.CreateSocialPosts | final/backend/final_app.py:25-31 | the keys are exactly YouTube, Instagram, X and LinkedIn |
| Backend.PostTemplate | final/backend/final_app.py:25-31 | for every one of the four platforms, the post is the caption inside that platform's fixed prefix and suffix |
| Backend.YouTubePost | final/backend/final_app.py:27 | the YouTube post is "🌟 ", the caption, a newline and "#AI #Art #YouTubeShorts" |
| Backend.InstagramPost | final/backend/final_app.py:28 | the Instagram post is the caption, " ✨", a newline and "#DigitalArt #InstaAI #Creative" |
| Backend.XPost | final/backend/final_app.py:29 | the X post is the caption followed by " 🧠 #AI #ImageGeneration" |
| Backend.LinkedInPost | final/backend/final_app.py:30 | the LinkedIn post is the caption, a newline and "Harnessing AI for creativity. #AIArt #Innovation" |
| Backend.PostsRecoverCaption | final/backend/final_app.py:25-31 | each platform's post gives back the caption it was built from |
| Backend.KeepAlnumSpace | final/backend/final_app.py:34 | only ASCII letters, digits and spaces are left |
| Backend.KeepAlnumSpaceAppend | final/backend/final_app.py:34 | the filter works character by character: the filtered concatenation is the concatenation of the filtered parts |
| Backend.KeepAlnumSpaceOfOne | final/backend/final_app.py:34 | one character is kept exactly when it is an ASCII letter, a digit or a space; with KeepAlnumSpaceAppend, every such character of the input stays, in order and in place relative to the others |
| Backend.KeepAlnumSpaceDropsHyphens | final/backend/final_app.py:34 | deleting the hyphens of the input first changes nothing: the filter removes them anyway |
| Backend.SeoFriendlyFilename | final/backend/final_app.py:32-36 | the file name ends in ".jpg"; what precedes it is a well-formed stem: only a-z, 0-9 and '-', no '-' at either end, never two '-' in a row |
| Backend.SeoStemShape | final/backend/final_app.py:33-35 | the stem is well-formed for every input file name |
| Backend.HyphenateShape | final/backend/final_app.py:35 | on text of lower-case letters, digits and spaces, collapsing `\s+` to '-' leaves only stem characters and no "--"; the result starts or ends with '-' exactly when the text starts or ends with a space |
| Backend.HyphenateContent | final/backend/final_app.py:35 | `Hyphenate`, the `re.sub(r'\s+', '-', ...)`, only replaces spaces: the text without its hyphens equals the input without its spaces |
| Backend.StripKeepsNonSpaces | final/backend/final_app.py:35 | once only letters, digits and spaces are left, `strip` removes nothing but spaces |
| Backend.SeoStemContent | final/backend/final_app.py:33-35 | the stem without its hyphens is the letters and digits of the name without its extension, lower-cased and in order |
| Backend.StemIgnoresHyphens | final/backend/final_app.py:33-35 | the stem of a name is the stem of that name with its hyphens deleted, so no hyphen of the stem comes from a hyphen of the name |
| Backend.HyphenatePlacement | final/backend/final_app.py:35 | a word without whitespace, a run of whitespace, and text not starting with whitespace hyphenate to the word, exactly one '-', and the rest hyphenated |
| Backend.StemOfWords | final/backend/final_app.py:33-35 | a lower-case word, a run of spaces and lower-case text with no space at either end give the stem: the word, one '-', and the stem of that text |
| Backend.StemOfWord | final/backend/final_app.py:33-35 | a single lower-case word is its own stem; with StemOfWords, lower-case text gets its words joined by single hyphens |
| Backend.StemDropsInnerHyphen | final/backend/final_app.py:33-35 | a hyphen inside a word is deleted while the spaces after the word become one hyphen: "a-b c" gives "ab-c" |
| Backend.SeoStemWithoutSpaces | final/backend/final_app.py:33-35 | a name whose root has no spaces gets a stem with no hyphen at all: its letters and digits, lower-cased |
| Backend.WordRunsSplit | final/backend/final_app.py:41 | `WordRuns`, the runs of `\b\w+\b`, never span a non-word character: the runs of the two sides, side by side |
| Backend.WordRunsOfWord | final/backend/final_app.py:41 | a non-empty run of word characters is a single run |
| Backend.LongWordsKept | final/backend/final_app.py:41 | `LongWords`, the `{4,}` of the pattern, keeps only runs of length at least four, and every such run is kept |
| Backend.LongWordsCount | final/backend/final_app.py:41 | each run of length at least four is kept as many times as it occurs, and no shorter run is kept |
| Backend.LongWordsAppend | final/backend/final_app.py:41 | the long words of two lists of runs are those of the first followed by those of the second |
| Backend.LongWordsOfOne | final/backend/final_app.py:41 | a single run is kept exactly when it has at least four characters; with LongWordsAppend this fixes `LongWords` as the filter that keeps order and repeats |
| Backend.KeywordList | final/backend/final_app.py:41 | every keyword has at least four characters, all lower-case letters, digits or '_' |
| Backend.KeywordListSplit | final/backend/final_app.py:41 | the keywords of a text split at a non-word character are those of the left part followed by those of the right part |
| Backend.KeywordListOfWord | final/backend/final_app.py:41 | a single lower-case word is a keyword exactly when it has at least four characters |
| Backend.KeywordListOfAnyWord | final/backend/final_app.py:41 | a single word in any case gives one keyword, its lower-cased form, exactly when it has at least four characters; with KeywordListSplit, "Sunset beach" gives "sunset" and "beach" |
| Backend.SeoTags | final/backend/final_app.py:43-52 | exactly the eight keys; each value is its fixed template around the SEO file name, the alt text, the keywords, and the base URL "https://yourdomain.com/images/" + file name |
| Backend.SeoDataFields | final/backend/final_app.py:38-44 | `GenerateSeoData` (`generate_seo_data`) gives the eight keys; `seo_filename` is `seo_friendly_filename(filename)`; `keywords` is the meta tag of `Keywords`, the keyword list joined with ", " by `Join` |
| Backend.SeoTagsUseFilename | final/backend/final_app.py:40-51 | the image and picture tags contain the SEO file name; the Open Graph, JSON-LD and picture tags contain the base URL; the alt text appears verbatim |
| Backend.GenerateImageRoute | final/backend/final_app.py:55-68 | status 400 with "No prompt provided" exactly when the prompt is missing or empty; otherwise the generated image |
| Backend.CaptionImageRoute | final/backend/final_app.py:70-82 | status 400 with "No image uploaded" exactly when no image is uploaded; otherwise the model's caption, with posts equal to `create_social_posts(caption)` |
| Backend.SeoRouteReplies | final/backend/final_app.py:84-92 | `GenerateSeoRoute` replies with status 400 and "Image file and alt text required" exactly when the image or `alt_text` is missing; otherwise with `generate_seo_data(filename, alt_text)` |
| PyText.Lower | final/backend/final_app.py:35 | `lower()` keeps the length and lower-cases each ASCII letter in place |
| PyText.Strip | final/backend/final_app.py:35 | the result is a slice of the input with no whitespace (`IsWhitespace`, the `str.isspace` set) at either end |
| PyText.StripRemovesOnlyWhitespace | final/backend/final_app.py:35 | the input is the stripped text with only whitespace around it |
| PyText.RFind | final/backend/final_app.py:33 | the index of the last occurrence of the character, or -1 exactly when it does not occur, as `splitext` uses it |
| PyText.SplitextRoot | final/backend/final_app.py:33 | the root is a prefix of the path; whatever is dropped starts at a '.' of the last path component, after a character other than '.', and holds no further '.' or '/' |
| PyText.ExtensionDropped | final/backend/final_app.py:33 | "stem.ext" loses exactly ".ext" when the stem holds a character other than '.' |
| PyText.LeadingDotsKept | final/backend/final_app.py:33 | leading dots are not an extension: ".bashrc" is kept whole |
| EndToEnd.ImageRequestsAccepted | final/mainpro/src/App.jsx:46-53 | every image request the client has in flight is accepted by the route, and a non-empty generated encoding is displayed as a PNG data URL |
| EndToEnd.EmptyPromptRefused | final/backend/final_app.py:58-60 | an empty prompt would draw the 400 body, which `AsImageReply` (the client's `data.image`) reads as having no image |
| EndToEnd.CaptionRoundTrip | final/backend/final_app.py:81-82 | a caption reply, read by `AsCaptionReply`, puts the model's caption and its four posts on the page, and each post gives that caption back |
| EndToEnd.CaptionlessReplyStored | final/mainpro/src/App.jsx:74-76 | a 400 caption body is stored anyway, as a missing caption and missing posts, after which SEO generation is refused |
| EndToEnd.SeoServed | final/backend/final_app.py:84-92 | the reply to the client's SEO form has status 200, and `AsSeoReply` reads it as `generate_seo_data` of the file's name and the alt text |
| EndToEnd.SeoRequestsAccepted | final/mainpro/src/App.jsx:101-113 | every SEO request in flight has a non-empty alt text, is accepted, and its reply stores exactly the SEO data of that file and alt text |
| EndToEnd.SeoFromUploadAndCaption | final/mainpro/src/App.jsx:101-113 | clicking "generate SEO" sends the uploaded file with the caption shown; once answered, the SEO data is built from them and the set in flight is back to what it was before the click |
| ContactWorkflow.Set | final/mainpro/src/componant/contact.jsx:15-18 | `{ ...prev, [name]: value }`: the named field becomes the value and the other three stay |
| ContactWorkflow.InputChange | final/mainpro/src/componant/contact.jsx:13-19 | only the named field of `formData` changes |
| ContactWorkflow.Submit | final/mainpro/src/componant/contact.jsx:21-27 | `isSubmitting` becomes true and `submitStatus` null, and a completion timer is set; the fields stay |
| ContactWorkflow.CompletionFires | final/mainpro/src/componant/contact.jsx:27-39 | `isSubmitting` becomes false and `submitStatus` 'success', all four fields become "", and a reset timer is set |
| ContactWorkflow.ResetFires | final/mainpro/src/componant/contact.jsx:38 | `submitStatus` goes back to null and nothing else changes |
| ContactWorkflow.DisplayFollowsState | final/mainpro/src/componant/contact.jsx:99-173 | the button is disabled from a submit until its completion, and the success notice is shown from a completion until a reset; typing affects neither |
| ContactWorkflow.CompletionEmptiesForm | final/mainpro/src/componant/contact.jsx:30-35 | after a completion the form is empty, so the `required` inputs block resubmission until every field is retyped |
| ContactWorkflow.StepInv | final/mainpro/src/componant/contact.jsx:21-40 | every event keeps the invariant: at most one submission in flight, exactly while submitting; a shown notice always has a reset coming; no notice while submitting |
| ContactWorkflow.RunInv | final/mainpro/src/componant/contact.jsx:21-40 | the invariant holds after every run of events |
| ContactWorkflow.IdleWhenTimersDone | final/mainpro/src/componant/contact.jsx:21-40 | from the first render, once every timer has fired the button is enabled and no notice is shown |
| ContactWorkflow.SubmitThenComplete | final/mainpro/src/componant/contact.jsx:21-39 | a submit followed by its timer is the completion applied to the submitted state |
| ContactWorkflow.RefillRun | final/mainpro/src/componant/contact.jsx:13-19 | typing into the four inputs fills the form and changes nothing else |
| ContactWorkflow.EarlierResetHidesLaterSuccess | final/mainpro/src/componant/contact.jsx:27-39 | the reset timer of an earlier submission is never cancelled, so it hides the success notice of a later submission while that one's own timer is still set |
| ContactComponent.ContactForm.constructor | final/mainpro/src/componant/contact.jsx:4-11 | the hooks start empty, not submitting, with no status |
| ContactComponent.ContactForm.ButtonDisabled | final/mainpro/src/componant/contact.jsx:173 | the button is disabled exactly while submitting |
| ContactComponent.ContactForm.AlertShown | final/mainpro/src/componant/contact.jsx:99 | the notice is shown exactly when the status is 'success' |
| ContactComponent.ContactForm.HandleInputChange | final/mainpro/src/componant/contact.jsx:13-19 | makes the InputChange step |
| ContactComponent.ContactForm.HandleSubmit | final/mainpro/src/componant/contact.jsx:21-27 | makes the Submit step |
| ContactComponent.ContactForm.CompletionFires | final/mainpro/src/componant/contact.jsx:27-36 | makes the CompletionFires step |
| ContactComponent.ContactForm.ResetFires | final/mainpro/src/componant/contact.jsx:38 | makes the ResetFires step |

## Left out

- Network, `fetch`, `FormData` and `res.json()` are not modelled as code. They are modelled as values: each request is a `Call` in the set in flight, and each reply is a datatype value that an event brings in.
  - `EndToEnd` ties the request bodies to the route functions.
  - JSON encoding is left out; the routes return the dictionary itself.
- `URL.createObjectURL` and the blob re-fetch (App.jsx:87, 94-96) are opaque. The object URL is an input of the upload event, and the fetched bytes are a `Blob`.
- App.jsx:20 is left out: the environment fallback for `backendURL`. The URL plays no part in any state.
- App.jsx:22-24 is left out: the `document.body.className` effect, which is presentation. The `darkMode` flag it reads is modelled.
- Real time and the JavaScript event loop: every reply and timer is an event that may come at any point after its request.
  - The contact form's two timers are counted, not ordered by their delays. A run that the model allows may be impossible with real 2 s and 3 s delays, so the set of runs is an over-approximation.
  - The scenario in `ContactWorkflow.EarlierResetHidesLaterSuccess` is possible in real time when the second submit comes within 3 s of the first one's success notice (5 s after the first submit), and the second completes before that notice's reset timer fires.
- Unmounting `Contact` when the page changes is left out. Its pending timers would then fire into an unmounted component; the model keeps the form state instead.
- The markup of `about.jsx` and the JSX layout are left out. The prompt input and the buttons are elided in the source (App.jsx:131).
  - The prompt setter is modelled as `SetPrompt`.
  - The caption button is modelled as captioning with an arbitrary optional file.
- The browser's email-format check on the contact form is left out. The `required` check on all four inputs is modelled.
- The diffusion model, captioning model, PIL, PNG and base64 steps (final_app.py:18-22, 62-66, 75-79) are function parameters of the routes. Flask setup, CORS and `app.run` are left out.
- `PyText.Lower`, `PyText.IsWordChar`: only ASCII letters are lower-cased and only ASCII letters, digits and '_' count as `\w`. Python's Unicode-aware `lower()` and `\w` on non-ASCII text are not modelled.
- `PyText.SplitextRoot`: POSIX `posixpath.splitext` only. Windows `ntpath` separators are not modelled.
- `HomeWorkflow.ResolveSeo`: the SEO reply is held as a dictionary of strings. A JSON body with non-string values is not modelled.
- `EndToEnd.SeoFromUploadAndCaption`: does not restate the `seo_filename` key. `Backend.SeoDataFields` states it for every input.
- `Backend.GenerateImageRoute`: the JSON body is a map of strings, as the client sends it.
  - The source's `if not prompt` (final_app.py:58-60) also gives 400 for `null`, `0`, `false` or `[]`; these are not modelled.
  - Flask answers a truthy non-string prompt, a body that is not an object, or a body that is not JSON with an error status of its own; that is not modelled either.
- `HomeWorkflow.ResolveCaption`: the reply's `caption` is a string and its `posts` a map of strings. A JSON body with values of other types is not modelled.
- `HomeWorkflow.ResolveImage`: the reply's `image` is a string. App.jsx:52 tests the truthiness of `data.image` for any JSON value, and values of other types are not modelled.
- The `console.error` calls in the three `catch` blocks (App.jsx:58, 78, 115) are left out, because they only write to the console.
- `HomeTraces.Enabled`: every home-page click is allowed whatever `currentPage` is. With About or Contact rendered (App.jsx:28-37) those buttons are not on screen, so the set of runs is larger than the real one. It is an over-approximation, so the invariants proved over all runs still hold.
- `HomeWorkflow.Upload`: the object URL is any string, "" included. `URL.createObjectURL` never returns "", so the model admits uploads the browser cannot produce.
