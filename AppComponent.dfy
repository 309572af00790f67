/** The `App` component of App.jsx as an object: one field per state hook, and one method per
    handler or per point where an awaited call comes back. Each method writes the fields in the
    order the handler calls their setters, returns the `alert` it shows, and is proved to make
    the step its HomeWorkflow function describes. `pending`, which no setter writes, loses an
    answered request once the handler's own writes are done. */
module AppComponent {
  import opened Common
  import W = HomeWorkflow
  import T = HomeTraces

  class App {
    var prompt: string
    var generatedImage: Option<string>
    var caption: Option<string>
    var socialPosts: Option<map<string, string>>
    var loading: bool
    var captionLoading: bool
    var uploadedFile: Option<File>
    var seoMetadata: Option<map<string, string>>
    var darkMode: bool
    var currentPage: string
    /** The requests sent and not yet answered. */
    var pending: multiset<W.Call>

    function Snapshot(): W.State
      reads this
    {
      W.State(prompt, generatedImage, caption, socialPosts, loading, captionLoading,
              uploadedFile, seoMetadata, darkMode, currentPage, pending)
    }

    /** The spinner and request invariant of every run. */
    predicate Valid()
      reads this
    {
      T.Inv(Snapshot())
    }

    /** The first render: every hook at its initial value. */
    constructor()
      ensures Snapshot() == W.Initial && Valid()
    {
      prompt := "";
      generatedImage := None;
      caption := Some("");
      socialPosts := Some(map[]);
      loading := false;
      captionLoading := false;
      uploadedFile := None;
      seoMetadata := None;
      darkMode := true;
      currentPage := "home";
      pending := multiset{};
    }

    method SetPrompt(text: string)
      requires Valid()
      modifies this
      ensures Snapshot() == W.SetPrompt(old(Snapshot()), text) && Valid()
    {
      prompt := text;
    }

    method ToggleTheme()
      requires Valid()
      modifies this
      ensures Snapshot() == W.ToggleTheme(old(Snapshot())) && Valid()
    {
      darkMode := !darkMode;
    }

    method Navigate(page: string)
      requires Valid()
      modifies this
      ensures Snapshot() == W.Navigate(old(Snapshot()), page) && Valid()
    {
      currentPage := page;
    }

    /** `handleGenerateImage` up to its `await fetch`. */
    method HandleGenerateImage() returns (alert: Option<string>)
      requires Valid()
      modifies this
      ensures Snapshot() == W.GenerateImage(old(Snapshot())) && Valid()
      ensures alert == W.ImageDispatchAlert(old(Snapshot()))
    {
      T.GenerateKeepsInv(Snapshot());
      if prompt == "" {
        return Some(W.PromptAlert);
      }
      loading := true;
      caption := Some("");
      socialPosts := Some(map[]);
      pending := pending + multiset{W.ImageCall(prompt)};
      alert := None;
    }

    /** The rest of `handleGenerateImage`, once the request for `requested` is answered. */
    method ResolveGenerateImage(requested: string, reply: W.ImageReply) returns (alert: Option<string>)
      requires Valid() && W.ImageCall(requested) in pending
      modifies this
      ensures Snapshot() == W.ResolveImage(old(Snapshot()), requested, reply) && Valid()
      ensures alert == W.ImageResolveAlert(reply)
    {
      T.ResolveImageKeepsInv(Snapshot(), requested, reply);
      match reply {
        case ImageJson(image) =>
          if W.Truthy(image) {
            generatedImage := Some(W.DataUrlPrefix + image.value);
            alert := None;
          } else {
            alert := Some(W.ImageFailedAlert);
          }
        case ImageThrown =>
          alert := Some(W.ApiErrorAlert);
      }
      loading, pending := false, pending - multiset{W.ImageCall(requested)};
    }

    /** `handleCaptionAndPost(imageFile)` up to its `await fetch`. */
    method HandleCaptionAndPost(imageFile: Option<File>) returns (alert: Option<string>)
      requires Valid()
      modifies this
      ensures Snapshot() == W.CaptionAndPost(old(Snapshot()), imageFile) && Valid()
      ensures alert == W.CaptionDispatchAlert(imageFile)
    {
      T.CaptionKeepsInv(Snapshot(), imageFile);
      if imageFile.None? {
        return Some(W.NoImageAlert);
      }
      captionLoading := true;
      pending := pending + multiset{W.CaptionCall(imageFile.value)};
      alert := None;
    }

    /** The rest of `handleCaptionAndPost`, once the request for `image` is answered. */
    method ResolveCaptionAndPost(image: File, reply: W.CaptionReply) returns (alert: Option<string>)
      requires Valid() && W.CaptionCall(image) in pending
      modifies this
      ensures Snapshot() == W.ResolveCaption(old(Snapshot()), image, reply) && Valid()
      ensures alert == W.CaptionResolveAlert(reply)
    {
      T.ResolveCaptionKeepsInv(Snapshot(), image, reply);
      if reply.CaptionJson? {
        caption := reply.caption;
        socialPosts := reply.posts;
        alert := None;
      } else {
        alert := Some(W.CaptionFailedAlert);
      }
      captionLoading := false;
      pending := pending - multiset{W.CaptionCall(image)};
    }

    /** `handleUpload` with `files[0]` and the object URL the browser makes for it. With no file,
        only `setUploadedFile` has run when `URL.createObjectURL` throws. */
    method HandleUpload(file: Option<File>, objectUrl: string)
      requires Valid()
      modifies this
      ensures Snapshot() == W.Upload(old(Snapshot()), file, objectUrl) && Valid()
    {
      T.UploadKeepsInv(Snapshot(), file, objectUrl);
      uploadedFile := file;
      if file.None? {
        return;
      }
      generatedImage := Some(objectUrl);
      T.CaptionKeepsInv(Snapshot(), file);
      var _ := HandleCaptionAndPost(file);
    }

    /** `handleCaptionGeneratedImage` up to its `await fetch(generatedImage)`. */
    method HandleCaptionGeneratedImage()
      requires Valid()
      modifies this
      ensures Snapshot() == W.CaptionGeneratedImage(old(Snapshot())) && Valid()
    {
      T.RecaptionKeepsInv(Snapshot());
      if !W.Truthy(generatedImage) {
        return;
      }
      captionLoading := true;
      pending := pending + multiset{W.BlobCall(generatedImage.value)};
    }

    /** `handleCaptionGeneratedImage` once the re-fetch of `url` settles: the bytes go on to
        `handleCaptionAndPost` as "generated.png"; a rejection ends the handler there. */
    method ResolveRefetch(url: string, reply: W.BlobReply)
      requires Valid() && W.BlobCall(url) in pending
      modifies this
      ensures Snapshot() == W.ResolveBlob(old(Snapshot()), url, reply) && Valid()
    {
      T.ResolveBlobKeepsInv(Snapshot(), url, reply);
      pending := pending - multiset{W.BlobCall(url)};
      if reply.BlobFetched? {
        var file := Some(File(reply.blob, W.GeneratedFileName));
        T.CaptionKeepsInv(Snapshot(), file);
        var _ := HandleCaptionAndPost(file);
      }
    }

    /** `handleGenerateSEO` up to its `await fetch`. */
    method HandleGenerateSeo() returns (alert: Option<string>)
      requires Valid()
      modifies this
      ensures Snapshot() == W.GenerateSeo(old(Snapshot())) && Valid()
      ensures alert == W.SeoDispatchAlert(old(Snapshot()))
    {
      T.SeoKeepsInv(Snapshot());
      if uploadedFile.None? || !W.Truthy(caption) {
        return Some(W.SeoRefusedAlert);
      }
      pending := pending + multiset{W.SeoCall(uploadedFile.value, caption.value)};
      alert := None;
    }

    /** The rest of `handleGenerateSEO`, once the request for `image` and `altText` is answered. */
    method ResolveGenerateSeo(image: File, altText: string, reply: W.SeoReply) returns (alert: Option<string>)
      requires Valid() && W.SeoCall(image, altText) in pending
      modifies this
      ensures Snapshot() == W.ResolveSeo(old(Snapshot()), image, altText, reply) && Valid()
      ensures alert == W.SeoResolveAlert(reply)
    {
      T.ResolveSeoKeepsInv(Snapshot(), image, altText, reply);
      match reply {
        case SeoJson(data) =>
          seoMetadata := Some(data);
          alert := None;
        case SeoThrown =>
          alert := Some(W.SeoFailedAlert);
      }
      pending := pending - multiset{W.SeoCall(image, altText)};
    }
  }
}
