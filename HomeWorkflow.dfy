/** The home page of the client (`App` in App.jsx) as a state machine over its `useState` record.
    Each async handler is a dispatch (its guard and the writes made before its first `await`)
    and a later resolve, which receives what the awaited call produced. Requests still in flight
    are kept in `pending`; a resolve can only answer a request that is in it. */
module HomeWorkflow {
  import opened Common

  /** A request the client has sent and not yet seen answered. */
  datatype Call =
    | ImageCall(prompt: string)                 // POST /generate-image
    | CaptionCall(image: File)                  // POST /caption-image
    | BlobCall(url: string)                     // fetch(generatedImage) and .blob()
    | SeoCall(image: File, altText: string)     // POST /generate-seo

  /** What `await res.json()` gave for /generate-image (its `image` field, or none), or a throw. */
  datatype ImageReply = ImageJson(image: Option<string>) | ImageThrown

  /** What `await res.json()` gave for /caption-image, or a throw. A field the body lacks is `None`
      (JavaScript's `undefined`). */
  datatype CaptionReply =
    | CaptionJson(caption: Option<string>, posts: Option<map<string, string>>)
    | CaptionThrown

  /** The re-fetched bytes of the displayed image, or a rejection of `fetch` or `blob()`. */
  datatype BlobReply = BlobFetched(blob: Blob) | BlobThrown

  /** The parsed JSON object of /generate-seo, or a throw. */
  datatype SeoReply = SeoJson(data: map<string, string>) | SeoThrown

  /** The state hooks of `App`. `caption` and `socialPosts` are `None` once a reply without the
      field has been stored; `generatedImage`, `uploadedFile` and `seoMetadata` are `None` while `null`. */
  datatype State = State(
    prompt: string,
    generatedImage: Option<string>,
    caption: Option<string>,
    socialPosts: Option<map<string, string>>,
    loading: bool,
    captionLoading: bool,
    uploadedFile: Option<File>,
    seoMetadata: Option<map<string, string>>,
    darkMode: bool,
    currentPage: string,
    pending: multiset<Call>)

  const Initial := State("", None, Some(""), Some(map[]), false, false, None, None, true, "home", multiset{})

  const DataUrlPrefix := "data:image/png;base64,"
  const GeneratedFileName := "generated.png"

  /** JavaScript truthiness of an optional string: present and not empty. */
  predicate Truthy(o: Option<string>) {
    o.Some? && o.value != ""
  }

  datatype Page = HomePage | AboutPage | ContactPage

  /** `renderPage`: which page the `currentPage` value selects. */
  function RenderPage(currentPage: string): (p: Page)
    ensures p == AboutPage <==> currentPage == "about"
    ensures p == ContactPage <==> currentPage == "contact"
    ensures p == HomePage <==> currentPage != "about" && currentPage != "contact"
  {
    if currentPage == "about" then AboutPage
    else if currentPage == "contact" then ContactPage
    else HomePage
  }

  /** `toggleTheme`. */
  function ToggleTheme(s: State): (r: State)
    ensures r.darkMode == !s.darkMode
    ensures r.(darkMode := s.darkMode) == s
  {
    s.(darkMode := !s.darkMode)
  }

  /** The prompt input's setter: the field becomes `text`. */
  function SetPrompt(s: State, text: string): (r: State)
    ensures r.prompt == text
    ensures r.(prompt := s.prompt) == s
  {
    s.(prompt := text)
  }

  /** A navigation button: `setCurrentPage(page)`. */
  function Navigate(s: State, page: string): (r: State)
    ensures r.currentPage == page
    ensures r.(currentPage := s.currentPage) == s
  {
    s.(currentPage := page)
  }

  /** Dispatch of `handleGenerateImage`: refused for an empty prompt; otherwise the spinner goes
      on, caption and posts are cleared and the request is sent. The SEO data, the uploaded file
      and the displayed image stay as they were. */
  function GenerateImage(s: State): (r: State)
    ensures s.prompt == "" ==> r == s
    ensures s.prompt != "" ==>
      && r.loading && r.caption == Some("") && r.socialPosts == Some(map[])
      && r.pending == s.pending + multiset{ImageCall(s.prompt)}
      && r.(loading := s.loading, caption := s.caption, socialPosts := s.socialPosts, pending := s.pending) == s
  {
    if s.prompt == "" then s
    else s.(loading := true, caption := Some(""), socialPosts := Some(map[]),
            pending := s.pending + multiset{ImageCall(s.prompt)})
  }

  /** Resolve of `handleGenerateImage`: a truthy `image` is shown as a PNG data URL; anything else
      keeps the old picture; the spinner goes off in every case. */
  function ResolveImage(s: State, prompt: string, reply: ImageReply): (r: State)
    requires ImageCall(prompt) in s.pending
    ensures !r.loading
    ensures reply.ImageJson? && Truthy(reply.image) ==> r.generatedImage == Some(DataUrlPrefix + reply.image.value)
    ensures !(reply.ImageJson? && Truthy(reply.image)) ==> r.generatedImage == s.generatedImage
    ensures r.pending == s.pending - multiset{ImageCall(prompt)}
    ensures r.(generatedImage := s.generatedImage, loading := s.loading, pending := s.pending) == s
  {
    var shown := if reply.ImageJson? && Truthy(reply.image) then Some(DataUrlPrefix + reply.image.value)
                 else s.generatedImage;
    s.(generatedImage := shown, loading := false, pending := s.pending - multiset{ImageCall(prompt)})
  }

  /** Dispatch of `handleCaptionAndPost(imageFile)`: refused without a file; otherwise the caption
      spinner goes on and the file is sent. */
  function CaptionAndPost(s: State, imageFile: Option<File>): (r: State)
    ensures imageFile.None? ==> r == s
    ensures imageFile.Some? ==>
      && r.captionLoading
      && r.pending == s.pending + multiset{CaptionCall(imageFile.value)}
      && r.(captionLoading := s.captionLoading, pending := s.pending) == s
  {
    if imageFile.None? then s
    else s.(captionLoading := true, pending := s.pending + multiset{CaptionCall(imageFile.value)})
  }

  /** Resolve of `handleCaptionAndPost`: a parsed body's `caption` and `posts` are stored as they
      are (missing fields included); a throw keeps both; the caption spinner goes off. */
  function ResolveCaption(s: State, image: File, reply: CaptionReply): (r: State)
    requires CaptionCall(image) in s.pending
    ensures !r.captionLoading
    ensures reply.CaptionJson? ==> r.caption == reply.caption && r.socialPosts == reply.posts
    ensures reply.CaptionThrown? ==> r.caption == s.caption && r.socialPosts == s.socialPosts
    ensures r.pending == s.pending - multiset{CaptionCall(image)}
    ensures r.(caption := s.caption, socialPosts := s.socialPosts, captionLoading := s.captionLoading,
               pending := s.pending) == s
  {
    var s' := s.(captionLoading := false, pending := s.pending - multiset{CaptionCall(image)});
    match reply
    case CaptionJson(caption, posts) => s'.(caption := caption, socialPosts := posts)
    case CaptionThrown => s'
  }

  /** `handleUpload` with `files[0]`: the file is recorded, its object URL `objectUrl` becomes the
      displayed image and the same file is sent for captioning. Caption, posts and SEO data stay.
      With no file, `setUploadedFile(undefined)` has run before `URL.createObjectURL` throws. */
  function Upload(s: State, file: Option<File>, objectUrl: string): (r: State)
    ensures file.None? ==> r == s.(uploadedFile := None)
    ensures file.Some? ==>
      && r.uploadedFile == file && r.generatedImage == Some(objectUrl)
      && r == CaptionAndPost(s.(uploadedFile := file, generatedImage := Some(objectUrl)), file)
    ensures file.Some? ==>
      r.caption == s.caption && r.socialPosts == s.socialPosts && r.seoMetadata == s.seoMetadata
  {
    match file
    case None => s.(uploadedFile := None)
    case Some(_) => CaptionAndPost(s.(uploadedFile := file, generatedImage := Some(objectUrl)), file)
  }

  /** Dispatch of `handleCaptionGeneratedImage`: nothing without a displayed image; otherwise the
      caption spinner goes on and the image is re-fetched. */
  function CaptionGeneratedImage(s: State): (r: State)
    ensures !Truthy(s.generatedImage) ==> r == s
    ensures Truthy(s.generatedImage) ==>
      && r.captionLoading
      && r.pending == s.pending + multiset{BlobCall(s.generatedImage.value)}
      && r.(captionLoading := s.captionLoading, pending := s.pending) == s
  {
    if !Truthy(s.generatedImage) then s
    else s.(captionLoading := true, pending := s.pending + multiset{BlobCall(s.generatedImage.value)})
  }

  /** The re-fetch resolves: its bytes, named "generated.png", go to `handleCaptionAndPost`.
      A rejection escapes the handler, which never reaches `setCaptionLoading(false)`. */
  function ResolveBlob(s: State, url: string, reply: BlobReply): (r: State)
    requires BlobCall(url) in s.pending
    ensures reply.BlobFetched? ==>
      r == CaptionAndPost(s.(pending := s.pending - multiset{BlobCall(url)}),
                          Some(File(reply.blob, GeneratedFileName)))
    ensures reply.BlobThrown? ==> r == s.(pending := s.pending - multiset{BlobCall(url)})
    ensures r.captionLoading == (s.captionLoading || reply.BlobFetched?)
  {
    var s' := s.(pending := s.pending - multiset{BlobCall(url)});
    match reply
    case BlobFetched(blob) => CaptionAndPost(s', Some(File(blob, GeneratedFileName)))
    case BlobThrown => s'
  }

  /** Dispatch of `handleGenerateSEO`: refused unless a file was uploaded and the caption is
      non-empty; otherwise the uploaded file is sent with the current caption as `alt_text`. */
  function GenerateSeo(s: State): (r: State)
    ensures s.uploadedFile.None? || !Truthy(s.caption) ==> r == s
    ensures s.uploadedFile.Some? && Truthy(s.caption) ==>
      r == s.(pending := s.pending + multiset{SeoCall(s.uploadedFile.value, s.caption.value)})
  {
    if s.uploadedFile.None? || !Truthy(s.caption) then s
    else s.(pending := s.pending + multiset{SeoCall(s.uploadedFile.value, s.caption.value)})
  }

  /** Resolve of `handleGenerateSEO`: a parsed body is stored as it is; a throw keeps the old data. */
  function ResolveSeo(s: State, image: File, altText: string, reply: SeoReply): (r: State)
    requires SeoCall(image, altText) in s.pending
    ensures reply.SeoJson? ==> r.seoMetadata == Some(reply.data)
    ensures reply.SeoThrown? ==> r.seoMetadata == s.seoMetadata
    ensures r.(seoMetadata := s.seoMetadata) == s.(pending := s.pending - multiset{SeoCall(image, altText)})
  {
    var s' := s.(pending := s.pending - multiset{SeoCall(image, altText)});
    match reply
    case SeoJson(data) => s'.(seoMetadata := Some(data))
    case SeoThrown => s'
  }

  // ---------------------------------------------------------------------------------------
  // Alerts

  const PromptAlert := "Enter a prompt!"
  const ImageFailedAlert := "Image generation failed."
  const ApiErrorAlert := "API error."
  const NoImageAlert := "Upload or generate an image first!"
  const CaptionFailedAlert := "Captioning failed."
  const SeoRefusedAlert := "Upload an image and generate caption first!"
  const SeoFailedAlert := "SEO generation failed."

  /** The `alert` each step shows, if any. */
  function ImageDispatchAlert(s: State): Option<string> {
    if s.prompt == "" then Some(PromptAlert) else None
  }

  function ImageResolveAlert(reply: ImageReply): Option<string> {
    match reply
    case ImageJson(image) => if Truthy(image) then None else Some(ImageFailedAlert)
    case ImageThrown => Some(ApiErrorAlert)
  }

  function CaptionDispatchAlert(imageFile: Option<File>): Option<string> {
    if imageFile.None? then Some(NoImageAlert) else None
  }

  function CaptionResolveAlert(reply: CaptionReply): Option<string> {
    if reply.CaptionThrown? then Some(CaptionFailedAlert) else None
  }

  function SeoDispatchAlert(s: State): Option<string> {
    if s.uploadedFile.None? || !Truthy(s.caption) then Some(SeoRefusedAlert) else None
  }

  function SeoResolveAlert(reply: SeoReply): Option<string> {
    if reply.SeoThrown? then Some(SeoFailedAlert) else None
  }

  /** A guarded handler alerts exactly when it refuses, and refusing leaves the state as it was. */
  lemma RefusalsAlert(s: State, imageFile: Option<File>)
    ensures ImageDispatchAlert(s).Some? <==> GenerateImage(s) == s
    ensures CaptionDispatchAlert(imageFile).Some? <==> CaptionAndPost(s, imageFile) == s
    ensures SeoDispatchAlert(s).Some? <==> GenerateSeo(s) == s
  {
    if s.prompt != "" {
      var c := ImageCall(s.prompt);
      assert GenerateImage(s).pending[c] == s.pending[c] + 1;
    }
    if imageFile.Some? {
      var c := CaptionCall(imageFile.value);
      assert CaptionAndPost(s, imageFile).pending[c] == s.pending[c] + 1;
    }
    if s.uploadedFile.Some? && Truthy(s.caption) {
      var c := SeoCall(s.uploadedFile.value, s.caption.value);
      assert GenerateSeo(s).pending[c] == s.pending[c] + 1;
    }
  }

  /** `toggleTheme` twice is no change. */
  lemma ToggleTwice(s: State)
    ensures ToggleTheme(ToggleTheme(s)) == s
  {
  }

  /** Navigating to a page's name renders that page. */
  lemma NavigateRenders(s: State)
    ensures RenderPage(Navigate(s, "home").currentPage) == HomePage
    ensures RenderPage(Navigate(s, "about").currentPage) == AboutPage
    ensures RenderPage(Navigate(s, "contact").currentPage) == ContactPage
  {
  }
}
