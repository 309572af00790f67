/** The client and the backend together: the body each client request carries, the route that
    answers it, and what `res.json()` then hands back to the client. */
module EndToEnd {
  import opened Common
  import B = Backend
  import W = HomeWorkflow
  import T = HomeTraces

  /** `JSON.stringify({ prompt })`. */
  function ImageRequest(prompt: string): map<string, string> {
    map["prompt" := prompt]
  }

  /** `formData.append("image", file)`. */
  function ImageForm(image: File): map<string, File> {
    map["image" := image]
  }

  /** `formData.append("alt_text", caption)`. */
  function SeoForm(altText: string): map<string, string> {
    map["alt_text" := altText]
  }

  /** The parsed body of a /generate-image reply, as the client reads it: `data.image`. */
  function AsImageReply(r: B.Reply): W.ImageReply
    requires r.BadRequest? || r.ImageBody?
  {
    if r.ImageBody? then W.ImageJson(Some(r.image)) else W.ImageJson(None)
  }

  /** The parsed body of a /caption-image reply: `data.caption` and `data.posts`. */
  function AsCaptionReply(r: B.Reply): W.CaptionReply
    requires r.BadRequest? || r.CaptionBody?
  {
    if r.CaptionBody? then W.CaptionJson(Some(r.caption), Some(r.posts)) else W.CaptionJson(None, None)
  }

  /** The parsed body of a /generate-seo reply: the whole object. */
  function AsSeoReply(r: B.Reply): W.SeoReply
    requires r.BadRequest? || r.SeoBody?
  {
    if r.SeoBody? then W.SeoJson(r.seo) else W.SeoJson(map["error" := r.error])
  }

  function ServeImage(prompt: string, generate: string -> string): W.ImageReply {
    AsImageReply(B.GenerateImageRoute(ImageRequest(prompt), generate))
  }

  function ServeCaption(image: File, describe: File -> string): W.CaptionReply {
    AsCaptionReply(B.CaptionImageRoute(ImageForm(image), describe))
  }

  function ServeSeo(image: File, altText: string): W.SeoReply {
    AsSeoReply(B.GenerateSeoRoute(ImageForm(image), SeoForm(altText)))
  }

  /** No image request the client sends is refused: its prompt is never empty. The generated
      picture, when the model returns a non-empty encoding, is what the page then shows. */
  lemma ImageRequestsAccepted(s: W.State, prompt: string, generate: string -> string)
    requires T.Inv(s) && W.ImageCall(prompt) in s.pending
    ensures B.StatusCode(B.GenerateImageRoute(ImageRequest(prompt), generate)) == 200
    ensures generate(prompt) != "" ==>
      W.ResolveImage(s, prompt, ServeImage(prompt, generate)).generatedImage == Some(W.DataUrlPrefix + generate(prompt))
  {
  }

  /** An empty prompt, were it sent, would draw the 400 reply, which has no `image`. */
  lemma EmptyPromptRefused(generate: string -> string)
    ensures ServeImage("", generate) == W.ImageJson(None)
  {
  }

  /** A caption reply puts the model's caption on the page together with the four posts made
      from it, and each post gives that caption back. */
  lemma CaptionRoundTrip(s: W.State, image: File, describe: File -> string)
    requires W.CaptionCall(image) in s.pending
    ensures var r := W.ResolveCaption(s, image, ServeCaption(image, describe));
      && r.caption == Some(describe(image))
      && r.socialPosts == Some(B.CreateSocialPosts(describe(image)))
      && forall p :: p in B.Platforms ==> B.CaptionOfPost(p, r.socialPosts.value[p]) == r.caption
  {
    var c := describe(image);
    forall p | p in B.Platforms
      ensures B.CaptionOfPost(p, B.CreateSocialPosts(c)[p]) == Some(c)
    {
      B.PostsRecoverCaption(c, p);
    }
  }

  /** A reply without `caption` and `posts` (the 400 body) is stored anyway: both become
      undefined, and SEO generation is refused from then on until a new caption arrives. */
  lemma CaptionlessReplyStored(s: W.State, image: File, error: string)
    requires W.CaptionCall(image) in s.pending
    ensures var r := W.ResolveCaption(s, image, AsCaptionReply(B.BadRequest(error)));
      && r.caption.None? && r.socialPosts.None?
      && W.GenerateSeo(r) == r
  {
  }

  /** The /generate-seo reply to a file and an alt text is the SEO data built from them. */
  lemma SeoServed(image: File, altText: string)
    ensures B.StatusCode(B.GenerateSeoRoute(ImageForm(image), SeoForm(altText))) == 200
    ensures ServeSeo(image, altText) == W.SeoJson(B.GenerateSeoData(image.name, altText))
  {
    var files, form := ImageForm(image), SeoForm(altText);
    assert "image" in files && "alt_text" in form;
    assert files["image"] == image && form["alt_text"] == altText;
    B.SeoRouteReplies(files, form);
    ServeSeoOf(image, altText, B.GenerateSeoData(image.name, altText));
  }

  lemma ServeSeoOf(image: File, altText: string, data: map<string, string>)
    requires B.GenerateSeoRoute(ImageForm(image), SeoForm(altText)) == B.SeoBody(data)
    ensures ServeSeo(image, altText) == W.SeoJson(data)
  {
  }

  /** Every SEO request the client has in flight is accepted, and its reply stores exactly what
      `generate_seo_data` makes of the file's name and the alt text. */
  lemma SeoRequestsAccepted(s: W.State, image: File, altText: string)
    requires T.Inv(s) && W.SeoCall(image, altText) in s.pending
    ensures altText != ""
    ensures B.StatusCode(B.GenerateSeoRoute(ImageForm(image), SeoForm(altText))) == 200
    ensures W.ResolveSeo(s, image, altText, ServeSeo(image, altText)).seoMetadata
            == Some(B.GenerateSeoData(image.name, altText))
  {
    SeoServed(image, altText);
    StoresServed(s, image, altText, B.GenerateSeoData(image.name, altText));
  }

  lemma StoresServed(s: W.State, image: File, altText: string, data: map<string, string>)
    requires W.SeoCall(image, altText) in s.pending && ServeSeo(image, altText) == W.SeoJson(data)
    ensures W.ResolveSeo(s, image, altText, ServeSeo(image, altText)).seoMetadata == Some(data)
  {
  }

  /** Clicking "generate SEO" sends the uploaded file with the caption on the page as its alt
      text; once answered, the SEO data is built from that file's name and that caption, and
      the requests in flight are those from before the click. */
  lemma SeoFromUploadAndCaption(s: W.State)
    requires s.uploadedFile.Some? && W.Truthy(s.caption)
    ensures var f, alt := s.uploadedFile.value, s.caption.value;
      var sent := W.GenerateSeo(s);
      && W.SeoCall(f, alt) in sent.pending
      && var r := W.ResolveSeo(sent, f, alt, ServeSeo(f, alt));
      && r.seoMetadata == Some(B.GenerateSeoData(f.name, alt))
      && r.pending == s.pending
  {
    var f, alt := s.uploadedFile.value, s.caption.value;
    var call := W.SeoCall(f, alt);
    var sent := W.GenerateSeo(s);
    assert sent.pending == s.pending + multiset{call};
    SeoServed(f, alt);
    StoresServed(sent, f, alt, B.GenerateSeoData(f.name, alt));
    var r := W.ResolveSeo(sent, f, alt, ServeSeo(f, alt));
    assert r.pending == sent.pending - multiset{call};
    T.AddThenRemove(s.pending, call);
  }
}
