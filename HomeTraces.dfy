/** Runs of the home page: any interleaving of user actions and replies to requests in flight.
    What holds along every run: the spinners, the requests the client can send, and which events
    may change the SEO data, the uploaded file and the caption. */
module HomeTraces {
  import opened Common
  import opened HomeWorkflow

  datatype Event =
    | PromptEdited(text: string)
    | GenerateClicked
    | ImageAnswered(prompt: string, imageReply: ImageReply)
    | CaptionClicked(imageFile: Option<File>)
    | FileChosen(file: Option<File>, objectUrl: string)
    | RecaptionClicked
    | BlobAnswered(url: string, blobReply: BlobReply)
    | CaptionAnswered(image: File, captionReply: CaptionReply)
    | SeoClicked
    | SeoAnswered(image: File, altText: string, seoReply: SeoReply)
    | ThemeToggled
    | PageChosen(page: string)

  /** A reply can only arrive for a request in flight; user actions are always possible. */
  predicate Enabled(s: State, e: Event) {
    match e
    case ImageAnswered(prompt, _) => ImageCall(prompt) in s.pending
    case BlobAnswered(url, _) => BlobCall(url) in s.pending
    case CaptionAnswered(image, _) => CaptionCall(image) in s.pending
    case SeoAnswered(image, altText, _) => SeoCall(image, altText) in s.pending
    case _ => true
  }

  function Step(s: State, e: Event): State
    requires Enabled(s, e)
  {
    match e
    case PromptEdited(text) => SetPrompt(s, text)
    case GenerateClicked => GenerateImage(s)
    case ImageAnswered(prompt, reply) => ResolveImage(s, prompt, reply)
    case CaptionClicked(imageFile) => CaptionAndPost(s, imageFile)
    case FileChosen(file, objectUrl) => Upload(s, file, objectUrl)
    case RecaptionClicked => CaptionGeneratedImage(s)
    case BlobAnswered(url, reply) => ResolveBlob(s, url, reply)
    case CaptionAnswered(image, reply) => ResolveCaption(s, image, reply)
    case SeoClicked => GenerateSeo(s)
    case SeoAnswered(image, altText, reply) => ResolveSeo(s, image, altText, reply)
    case ThemeToggled => ToggleTheme(s)
    case PageChosen(page) => Navigate(s, page)
  }

  /** Every event of `es` is enabled in turn, starting from `s`. */
  predicate Admissible(s: State, es: seq<Event>)
    decreases |es|
  {
    es == [] || (Enabled(s, es[0]) && Admissible(Step(s, es[0]), es[1..]))
  }

  function Run(s: State, es: seq<Event>): State
    requires Admissible(s, es)
    decreases |es|
  {
    if es == [] then s else Run(Step(s, es[0]), es[1..])
  }

  // ---------------------------------------------------------------------------------------
  // What every run keeps

  /** The image spinner is on only while an image request is in flight; every image request in
      flight has a non-empty prompt and every SEO request a non-empty alt text. */
  predicate Inv(s: State) {
    && (s.loading ==> exists c :: c in s.pending && c.ImageCall?)
    && (forall c :: c in s.pending && c.ImageCall? ==> c.prompt != "")
    && (forall c :: c in s.pending && c.SeoCall? ==> c.altText != "")
  }

  lemma InitialInv()
    ensures Inv(Initial)
  {
  }

  /** A step that adds `added` to the requests in flight and takes `removed` out, can only turn
      the spinner off, and takes no image request out while the spinner stays on, keeps Inv. */
  lemma KeepsInv(s: State, r: State, added: multiset<Call>, removed: multiset<Call>)
    requires Inv(s)
    requires r.pending == s.pending + added - removed
    requires r.loading ==> s.loading && forall c :: c in removed ==> !c.ImageCall?
    requires forall c :: c in added ==> !c.ImageCall? && !c.SeoCall?
    ensures Inv(r)
  {
    if r.loading {
      var c :| c in s.pending && c.ImageCall?;
      assert c in r.pending;
    }
  }

  lemma StepInv(s: State, e: Event)
    requires Inv(s) && Enabled(s, e)
    ensures Inv(Step(s, e))
  {
    match e
    case PromptEdited(text) => SameWorkKeepsInv(s, SetPrompt(s, text));
    case GenerateClicked => GenerateKeepsInv(s);
    case ImageAnswered(prompt, reply) => ResolveImageKeepsInv(s, prompt, reply);
    case CaptionClicked(imageFile) => CaptionKeepsInv(s, imageFile);
    case FileChosen(file, objectUrl) => UploadKeepsInv(s, file, objectUrl);
    case RecaptionClicked => RecaptionKeepsInv(s);
    case BlobAnswered(url, reply) => ResolveBlobKeepsInv(s, url, reply);
    case CaptionAnswered(image, reply) => ResolveCaptionKeepsInv(s, image, reply);
    case SeoClicked => SeoKeepsInv(s);
    case SeoAnswered(image, altText, reply) => ResolveSeoKeepsInv(s, image, altText, reply);
    case ThemeToggled => SameWorkKeepsInv(s, ToggleTheme(s));
    case PageChosen(page) => SameWorkKeepsInv(s, Navigate(s, page));
  }

  lemma SameWorkKeepsInv(s: State, r: State)
    requires Inv(s) && r.pending == s.pending && r.loading == s.loading
    ensures Inv(r)
  {
  }

  lemma ResolveImageKeepsInv(s: State, prompt: string, reply: ImageReply)
    requires Inv(s) && ImageCall(prompt) in s.pending
    ensures Inv(ResolveImage(s, prompt, reply))
  {
    KeepsInv(s, ResolveImage(s, prompt, reply), multiset{}, multiset{ImageCall(prompt)});
  }

  lemma ResolveBlobKeepsInv(s: State, url: string, reply: BlobReply)
    requires Inv(s) && BlobCall(url) in s.pending
    ensures Inv(ResolveBlob(s, url, reply))
  {
    var r := ResolveBlob(s, url, reply);
    var added := if reply.BlobFetched? then multiset{CaptionCall(File(reply.blob, GeneratedFileName))} else multiset{};
    assert r.pending == s.pending - multiset{BlobCall(url)} + added;
    assert r.pending == s.pending + added - multiset{BlobCall(url)};
    KeepsInv(s, r, added, multiset{BlobCall(url)});
  }

  lemma ResolveCaptionKeepsInv(s: State, image: File, reply: CaptionReply)
    requires Inv(s) && CaptionCall(image) in s.pending
    ensures Inv(ResolveCaption(s, image, reply))
  {
    KeepsInv(s, ResolveCaption(s, image, reply), multiset{}, multiset{CaptionCall(image)});
  }

  lemma ResolveSeoKeepsInv(s: State, image: File, altText: string, reply: SeoReply)
    requires Inv(s) && SeoCall(image, altText) in s.pending
    ensures Inv(ResolveSeo(s, image, altText, reply))
  {
    KeepsInv(s, ResolveSeo(s, image, altText, reply), multiset{}, multiset{SeoCall(image, altText)});
  }

  lemma CaptionKeepsInv(s: State, imageFile: Option<File>)
    requires Inv(s)
    ensures Inv(CaptionAndPost(s, imageFile))
  {
    var added := if imageFile.Some? then multiset{CaptionCall(imageFile.value)} else multiset{};
    KeepsInv(s, CaptionAndPost(s, imageFile), added, multiset{});
  }

  lemma UploadKeepsInv(s: State, file: Option<File>, objectUrl: string)
    requires Inv(s)
    ensures Inv(Upload(s, file, objectUrl))
  {
    var added := if file.Some? then multiset{CaptionCall(file.value)} else multiset{};
    KeepsInv(s, Upload(s, file, objectUrl), added, multiset{});
  }

  lemma RecaptionKeepsInv(s: State)
    requires Inv(s)
    ensures Inv(CaptionGeneratedImage(s))
  {
    var added := if Truthy(s.generatedImage) then multiset{BlobCall(s.generatedImage.value)} else multiset{};
    KeepsInv(s, CaptionGeneratedImage(s), added, multiset{});
  }

  lemma GenerateKeepsInv(s: State)
    requires Inv(s)
    ensures Inv(GenerateImage(s))
  {
    var r := GenerateImage(s);
    if s.prompt != "" {
      assert ImageCall(s.prompt) in r.pending;
      assert forall c :: c in r.pending ==> c in s.pending || c == ImageCall(s.prompt);
    }
  }

  lemma SeoKeepsInv(s: State)
    requires Inv(s)
    ensures Inv(GenerateSeo(s))
  {
    var r := GenerateSeo(s);
    if s.uploadedFile.Some? && Truthy(s.caption) {
      assert forall c :: c in r.pending ==> c in s.pending || c == SeoCall(s.uploadedFile.value, s.caption.value);
      if s.loading {
        var c :| c in s.pending && c.ImageCall?;
        assert c in r.pending;
      }
    }
  }

  lemma {:induction false} RunInv(s: State, es: seq<Event>)
    requires Inv(s) && Admissible(s, es)
    ensures Inv(Run(s, es))
    decreases |es|
  {
    if es != [] {
      StepInv(s, es[0]);
      RunInv(Step(s, es[0]), es[1..]);
    }
  }

  /** Along every run from the first render, the image spinner cannot outlast its requests:
      once no image request is in flight it is off. */
  lemma SpinnerOffWhenIdle(es: seq<Event>)
    requires Admissible(Initial, es)
    ensures var s := Run(Initial, es);
      (forall c :: c in s.pending ==> !c.ImageCall?) ==> !s.loading
  {
    InitialInv();
    RunInv(Initial, es);
  }

  // ---------------------------------------------------------------------------------------
  // The caption spinner

  predicate CaptionWork(c: Call) {
    c.CaptionCall? || c.BlobCall?
  }

  /** The caption spinner is on only while a caption request or an image re-fetch is in flight. */
  predicate CaptionInv(s: State) {
    s.captionLoading ==> exists c :: c in s.pending && CaptionWork(c)
  }

  predicate BlobFailure(e: Event) {
    e.BlobAnswered? && e.blobReply.BlobThrown?
  }

  lemma KeepsCaptionInv(s: State, r: State, added: multiset<Call>, removed: multiset<Call>)
    requires CaptionInv(s)
    requires r.pending == s.pending + added - removed
    requires r.captionLoading ==>
      (s.captionLoading && forall c :: c in removed ==> !CaptionWork(c))
      || (exists c :: c in added && c !in removed && CaptionWork(c))
    ensures CaptionInv(r)
  {
    if r.captionLoading {
      if s.captionLoading && forall c :: c in removed ==> !CaptionWork(c) {
        var c :| c in s.pending && CaptionWork(c);
        assert c in r.pending;
      } else {
        var c :| c in added && c !in removed && CaptionWork(c);
        assert c in r.pending;
      }
    }
  }

  /** Every step but a failed re-fetch keeps CaptionInv. */
  lemma StepCaptionInv(s: State, e: Event)
    requires CaptionInv(s) && Enabled(s, e) && !BlobFailure(e)
    ensures CaptionInv(Step(s, e))
  {
    match e
    case PromptEdited(text) => SameWorkKeepsCaptionInv(s, SetPrompt(s, text));
    case GenerateClicked => GenerateKeepsCaptionInv(s);
    case ImageAnswered(prompt, reply) => ResolveImageKeepsCaptionInv(s, prompt, reply);
    case CaptionClicked(imageFile) => CaptionKeepsCaptionInv(s, imageFile);
    case FileChosen(file, objectUrl) => UploadKeepsCaptionInv(s, file, objectUrl);
    case RecaptionClicked => RecaptionKeepsCaptionInv(s);
    case BlobAnswered(url, reply) => ResolveBlobKeepsCaptionInv(s, url, reply);
    case CaptionAnswered(image, reply) => ResolveCaptionKeepsCaptionInv(s, image, reply);
    case SeoClicked => SeoKeepsCaptionInv(s);
    case SeoAnswered(image, altText, reply) => ResolveSeoKeepsCaptionInv(s, image, altText, reply);
    case ThemeToggled => SameWorkKeepsCaptionInv(s, ToggleTheme(s));
    case PageChosen(page) => SameWorkKeepsCaptionInv(s, Navigate(s, page));
  }

  lemma SameWorkKeepsCaptionInv(s: State, r: State)
    requires CaptionInv(s) && r.pending == s.pending && r.captionLoading == s.captionLoading
    ensures CaptionInv(r)
  {
  }

  lemma ResolveImageKeepsCaptionInv(s: State, prompt: string, reply: ImageReply)
    requires CaptionInv(s) && ImageCall(prompt) in s.pending
    ensures CaptionInv(ResolveImage(s, prompt, reply))
  {
    KeepsCaptionInv(s, ResolveImage(s, prompt, reply), multiset{}, multiset{ImageCall(prompt)});
  }

  lemma ResolveCaptionKeepsCaptionInv(s: State, image: File, reply: CaptionReply)
    requires CaptionInv(s) && CaptionCall(image) in s.pending
    ensures CaptionInv(ResolveCaption(s, image, reply))
  {
    KeepsCaptionInv(s, ResolveCaption(s, image, reply), multiset{}, multiset{CaptionCall(image)});
  }

  lemma ResolveSeoKeepsCaptionInv(s: State, image: File, altText: string, reply: SeoReply)
    requires CaptionInv(s) && SeoCall(image, altText) in s.pending
    ensures CaptionInv(ResolveSeo(s, image, altText, reply))
  {
    KeepsCaptionInv(s, ResolveSeo(s, image, altText, reply), multiset{}, multiset{SeoCall(image, altText)});
  }

  lemma GenerateKeepsCaptionInv(s: State)
    requires CaptionInv(s)
    ensures CaptionInv(GenerateImage(s))
  {
    var added := if s.prompt != "" then multiset{ImageCall(s.prompt)} else multiset{};
    KeepsCaptionInv(s, GenerateImage(s), added, multiset{});
  }

  lemma SeoKeepsCaptionInv(s: State)
    requires CaptionInv(s)
    ensures CaptionInv(GenerateSeo(s))
  {
    var added := if s.uploadedFile.Some? && Truthy(s.caption)
                 then multiset{SeoCall(s.uploadedFile.value, s.caption.value)} else multiset{};
    KeepsCaptionInv(s, GenerateSeo(s), added, multiset{});
  }

  lemma CaptionKeepsCaptionInv(s: State, imageFile: Option<File>)
    requires CaptionInv(s)
    ensures CaptionInv(CaptionAndPost(s, imageFile))
  {
    if imageFile.Some? {
      var c := CaptionCall(imageFile.value);
      KeepsCaptionInv(s, CaptionAndPost(s, imageFile), multiset{c}, multiset{});
    }
  }

  lemma UploadKeepsCaptionInv(s: State, file: Option<File>, objectUrl: string)
    requires CaptionInv(s)
    ensures CaptionInv(Upload(s, file, objectUrl))
  {
    if file.Some? {
      CaptionKeepsCaptionInv(s.(uploadedFile := file, generatedImage := Some(objectUrl)), file);
    }
  }

  lemma RecaptionKeepsCaptionInv(s: State)
    requires CaptionInv(s)
    ensures CaptionInv(CaptionGeneratedImage(s))
  {
    if Truthy(s.generatedImage) {
      KeepsCaptionInv(s, CaptionGeneratedImage(s), multiset{BlobCall(s.generatedImage.value)}, multiset{});
    }
  }

  lemma ResolveBlobKeepsCaptionInv(s: State, url: string, reply: BlobReply)
    requires CaptionInv(s) && BlobCall(url) in s.pending && reply.BlobFetched?
    ensures CaptionInv(ResolveBlob(s, url, reply))
  {
    var r := ResolveBlob(s, url, reply);
    var c := CaptionCall(File(reply.blob, GeneratedFileName));
    assert c in r.pending;
  }

  lemma {:induction false} RunCaptionInv(s: State, es: seq<Event>)
    requires CaptionInv(s) && Admissible(s, es)
    requires forall i :: 0 <= i < |es| ==> !BlobFailure(es[i])
    ensures CaptionInv(Run(s, es))
    decreases |es|
  {
    if es != [] {
      StepCaptionInv(s, es[0]);
      RunCaptionInv(Step(s, es[0]), es[1..]);
    }
  }

  /** Unless a re-fetch of the displayed image fails, the caption spinner is off once no caption
      request and no re-fetch is in flight. */
  lemma CaptionSpinnerOffWhenIdle(es: seq<Event>)
    requires Admissible(Initial, es)
    requires forall i :: 0 <= i < |es| ==> !BlobFailure(es[i])
    ensures var s := Run(Initial, es);
      (forall c :: c in s.pending ==> !CaptionWork(c)) ==> !s.captionLoading
  {
    RunCaptionInv(Initial, es);
  }

  // ---------------------------------------------------------------------------------------
  // Which events write which fields

  /** Only a parsed SEO reply writes `seoMetadata`; a new image or upload never clears it. */
  lemma SeoWrittenOnlyBySeoReply(s: State, e: Event)
    requires Enabled(s, e)
    ensures Step(s, e).seoMetadata != s.seoMetadata ==> e.SeoAnswered? && e.seoReply.SeoJson?
    ensures e.SeoAnswered? && e.seoReply.SeoJson? ==> Step(s, e).seoMetadata == Some(e.seoReply.data)
  {
  }

  /** Only choosing a file writes `uploadedFile`. */
  lemma UploadWrittenOnlyByFileChoice(s: State, e: Event)
    requires Enabled(s, e)
    ensures Step(s, e).uploadedFile != s.uploadedFile ==> e.FileChosen?
    ensures e.FileChosen? ==> Step(s, e).uploadedFile == e.file
  {
  }

  /** The caption is written by a parsed caption reply, or cleared by an image request
      that was actually sent; uploading does not touch it. */
  lemma CaptionWrittenOnlyByReplyOrGenerate(s: State, e: Event)
    requires Enabled(s, e)
    ensures Step(s, e).caption != s.caption ==>
      (e.CaptionAnswered? && e.captionReply.CaptionJson?) || (e.GenerateClicked? && s.prompt != "")
  {
  }

  /** The displayed image is written by a truthy image reply or by choosing a file. */
  lemma ImageWrittenOnlyByReplyOrUpload(s: State, e: Event)
    requires Enabled(s, e)
    ensures Step(s, e).generatedImage != s.generatedImage ==>
      (e.ImageAnswered? && e.imageReply.ImageJson? && Truthy(e.imageReply.image)) || (e.FileChosen? && e.file.Some?)
  {
  }

  // ---------------------------------------------------------------------------------------
  // Last writer wins

  lemma RunOne(s: State, e: Event)
    requires Enabled(s, e)
    ensures Admissible(s, [e]) && Run(s, [e]) == Step(s, e)
  {
    assert [e][1..] == [];
  }

  lemma RunCons(s: State, e: Event, es: seq<Event>)
    requires Enabled(s, e) && Admissible(Step(s, e), es)
    ensures Admissible(s, [e] + es) && Run(s, [e] + es) == Run(Step(s, e), es)
  {
    assert ([e] + es)[0] == e && ([e] + es)[1..] == es;
  }

  /** Two uploads whose caption replies come back in the opposite order: the second file is the
      uploaded and displayed one, but the caption and posts shown are those of the first. */
  lemma StaleCaptionWins(s: State, f1: File, f2: File, url1: string, url2: string,
                         c1: string, p1: map<string, string>, c2: string, p2: map<string, string>)
    ensures var es := [FileChosen(Some(f1), url1), FileChosen(Some(f2), url2),
                       CaptionAnswered(f2, CaptionJson(Some(c2), Some(p2))),
                       CaptionAnswered(f1, CaptionJson(Some(c1), Some(p1)))];
      && Admissible(s, es)
      && var t := Run(s, es);
      && t.uploadedFile == Some(f2) && t.generatedImage == Some(url2)
      && t.caption == Some(c1) && t.socialPosts == Some(p1) && !t.captionLoading
      && t.pending == s.pending
  {
    var e1, e2 := FileChosen(Some(f1), url1), FileChosen(Some(f2), url2);
    var e3 := CaptionAnswered(f2, CaptionJson(Some(c2), Some(p2)));
    var e4 := CaptionAnswered(f1, CaptionJson(Some(c1), Some(p1)));
    var call1, call2 := CaptionCall(f1), CaptionCall(f2);
    var s1 := Upload(s, Some(f1), url1);
    assert s1.pending == s.pending + multiset{call1};
    var s2 := Upload(s1, Some(f2), url2);
    assert s2.pending == s1.pending + multiset{call2};
    var s3 := ResolveCaption(s2, f2, e3.captionReply);
    assert s3.pending == s1.pending by {
      AddThenRemove(s1.pending, call2);
    }
    var s4 := ResolveCaption(s3, f1, e4.captionReply);
    assert s4.pending == s.pending by {
      AddThenRemove(s.pending, call1);
    }
    Run4(s, e1, e2, e3, e4);
  }

  lemma AddThenRemove(m: multiset<Call>, c: Call)
    ensures m + multiset{c} - multiset{c} == m
  {
  }

  /** A run of four events, each enabled where it is taken. */
  lemma Run4(s: State, e1: Event, e2: Event, e3: Event, e4: Event)
    requires Enabled(s, e1) && Enabled(Step(s, e1), e2) && Enabled(Step(Step(s, e1), e2), e3)
    requires Enabled(Step(Step(Step(s, e1), e2), e3), e4)
    ensures Admissible(s, [e1, e2, e3, e4])
    ensures Run(s, [e1, e2, e3, e4]) == Step(Step(Step(Step(s, e1), e2), e3), e4)
  {
    var s1 := Step(s, e1);
    var s2 := Step(s1, e2);
    var s3 := Step(s2, e3);
    RunOne(s3, e4);
    RunCons(s2, e3, [e4]);
    assert [e3] + [e4] == [e3, e4];
    RunCons(s1, e2, [e3, e4]);
    assert [e2] + [e3, e4] == [e2, e3, e4];
    RunCons(s, e1, [e2, e3, e4]);
    assert [e1] + [e2, e3, e4] == [e1, e2, e3, e4];
  }

  /** Nothing stops a second image request while the first is in flight, and the first reply
      turns the spinner off while the other is still outstanding. */
  lemma SpinnerOffWhileImageInFlight(s: State, image: string)
    requires s.prompt != ""
    ensures var es := [GenerateClicked, GenerateClicked, ImageAnswered(s.prompt, ImageJson(Some(image)))];
      && Admissible(s, es)
      && var t := Run(s, es);
      && !t.loading && ImageCall(s.prompt) in t.pending
  {
    var c := ImageCall(s.prompt);
    var e3 := ImageAnswered(s.prompt, ImageJson(Some(image)));
    var s1 := Step(s, GenerateClicked);
    var s2 := Step(s1, GenerateClicked);
    assert s2.pending[c] == s.pending[c] + 2;
    var t := Step(s2, e3);
    assert t.pending[c] == s.pending[c] + 1;
    RunOne(s2, e3);
    RunCons(s1, GenerateClicked, [e3]);
    assert [GenerateClicked] + [e3] == [GenerateClicked, e3];
    RunCons(s, GenerateClicked, [GenerateClicked, e3]);
    assert [GenerateClicked] + [GenerateClicked, e3] == [GenerateClicked, GenerateClicked, e3];
  }

  /** A failed re-fetch of the displayed image leaves the caption spinner on and the requests
      in flight as they were; when no caption work was in flight before, nothing in flight can
      turn the spinner off. */
  lemma FailedRefetchLeavesSpinner(s: State)
    requires Truthy(s.generatedImage)
    ensures var es := [RecaptionClicked, BlobAnswered(s.generatedImage.value, BlobThrown)];
      && Admissible(s, es)
      && var t := Run(s, es);
      && t.captionLoading && t.pending == s.pending
      && ((forall c :: c in s.pending ==> !CaptionWork(c)) ==> !CaptionInv(t))
  {
    var e2 := BlobAnswered(s.generatedImage.value, BlobThrown);
    var s1 := Step(s, RecaptionClicked);
    RunOne(s1, e2);
    RunCons(s, RecaptionClicked, [e2]);
    assert [RecaptionClicked] + [e2] == [RecaptionClicked, e2];
  }
}
