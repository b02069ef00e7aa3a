/**
 * The post page (`Post`): loading the post named by the route, the cover
 * image with its preview-then-original fallback, the author check that
 * gates the edit and delete controls, and deleting the post.
 */
module PostPage {
  import opened Wrappers
  import opened Store
  import opened Ui
  import PostForm

  // ---------------------------------------------------------------------------
  // Cover image
  // ---------------------------------------------------------------------------

  /** `previewUrl`: null without a truthy `featuredImage`, or when building
      the URL throws. */
  function CoverPreview(svc: Service, post: Option<Document>, sdkThrows: bool): (r: Option<FileUrl>)
    ensures r.Some? <==> post.Some? && HasFeaturedImage(post.value) && !sdkThrows
    ensures r.Some? ==> r.value == FileUrl.PreviewUrl(svc.bucketId, post.value.featuredImage.value, 1200, 1200, "center", 80)
  {
    if post.None? || !HasFeaturedImage(post.value) then None
    else
      match svc.GetFilePreview(post.value.featuredImage.value, None, None, None, sdkThrows)
      case Ok(url) => Some(url)
      case Threw(_) => None
  }

  /** `viewUrl`: the same, with the URL of the original file. */
  function CoverView(svc: Service, post: Option<Document>, sdkThrows: bool): (r: Option<FileUrl>)
    ensures r.Some? <==> post.Some? && HasFeaturedImage(post.value) && !sdkThrows
    ensures r.Some? ==> r.value == FileUrl.ViewUrl(svc.bucketId, post.value.featuredImage.value)
  {
    if post.None? || !HasFeaturedImage(post.value) then None
    else
      match svc.GetFileView(post.value.featuredImage.value, sdkThrows)
      case Ok(url) => Some(url)
      case Threw(_) => None
  }

  /** `imgSrc`: nothing once the image is dead, else the preview, or the
      original once falling back. `None` shows the placeholder. */
  function ShownSource(useFallback: bool, imgDead: bool, preview: Option<FileUrl>, view: Option<FileUrl>): Option<FileUrl> {
    if imgDead then None else if !useFallback then preview else view
  }

  /** The `onError` handler: fall back to the original when not yet falling
      back and there is one, otherwise give the image up. */
  function AfterLoadError(useFallback: bool, imgDead: bool, view: Option<FileUrl>): (bool, bool) {
    if !useFallback && view.Some? then (true, imgDead) else (useFallback, true)
  }

  /** How many more load errors the shown image can raise before the
      placeholder replaces it; every error brings the placeholder closer. */
  function ErrorsBeforePlaceholder(useFallback: bool, imgDead: bool, preview: Option<FileUrl>, view: Option<FileUrl>): (n: nat)
    ensures n == 0 <==> ShownSource(useFallback, imgDead, preview, view).None?
    ensures n <= (if imgDead then 0 else if useFallback then 1 else 2)
    decreases if imgDead then 0 else if useFallback then 1 else 2
  {
    if ShownSource(useFallback, imgDead, preview, view).None? then 0
    else
      var next := AfterLoadError(useFallback, imgDead, view);
      1 + ErrorsBeforePlaceholder(next.0, next.1, preview, view)
  }

  /** The cover as first rendered: the preview, then the original, then the
      placeholder, taking one load error per step; with no preview the
      placeholder shows at once and the original is never tried. */
  lemma FallbackChain(preview: Option<FileUrl>, view: Option<FileUrl>)
    ensures ShownSource(false, false, preview, view) == preview
    ensures ErrorsBeforePlaceholder(false, false, preview, view) ==
            if preview.None? then 0 else if view.Some? then 2 else 1
    ensures preview.Some? && view.Some? ==>
            var next := AfterLoadError(false, false, view);
            ShownSource(next.0, next.1, preview, view) == view
  {
    if preview.Some? {
      var next := AfterLoadError(false, false, view);
      if view.Some? {
        var last := AfterLoadError(next.0, next.1, view);
        assert ErrorsBeforePlaceholder(last.0, last.1, preview, view) == 0;
      } else {
        assert ErrorsBeforePlaceholder(next.0, next.1, preview, view) == 0;
      }
    }
  }

  /** The two flags of the cover image, changed only by load errors. */
  class CoverImage {
    const preview: Option<FileUrl>
    const view: Option<FileUrl>
    var useFallback: bool
    var imgDead: bool

    constructor (preview: Option<FileUrl>, view: Option<FileUrl>)
      ensures this.preview == preview && this.view == view
      ensures !useFallback && !imgDead
      ensures Source() == preview
    {
      this.preview := preview;
      this.view := view;
      useFallback := false;
      imgDead := false;
    }

    /** The `src` rendered; `None` renders the placeholder instead. */
    function Source(): Option<FileUrl>
      reads this
    {
      ShownSource(useFallback, imgDead, preview, view)
    }

    /** The `<img>` failed to load. Only a rendered image can fail, so a
        source is shown. Neither flag is ever cleared. */
    method OnError()
      requires Source().Some?
      modifies this
      ensures (useFallback, imgDead) == AfterLoadError(old(useFallback), old(imgDead), view)
      ensures old(useFallback) ==> useFallback
      ensures old(imgDead) ==> imgDead
      ensures ErrorsBeforePlaceholder(useFallback, imgDead, preview, view) ==
              old(ErrorsBeforePlaceholder(useFallback, imgDead, preview, view)) - 1
    {
      if !useFallback && view.Some? {
        useFallback := true;
      } else {
        imgDead := true;
      }
    }
  }

  // ---------------------------------------------------------------------------
  // Authorship
  // ---------------------------------------------------------------------------

  /** `isAuthor`: a post and a signed-in user, and the post's `userID` is
      the user's id. */
  predicate IsAuthor(post: Option<Document>, user: Option<User>) {
    post.Some? && user.Some? && post.value.userID == Some(user.value.id)
  }

  /** The user who created a post through the editor is its author, and a
      post created with nobody signed in has no author. */
  lemma CreatorIsAuthor(v: PostForm.FormValues, fileId: string, creator: Option<User>, user: User)
    ensures var d := NewDocument(PostForm.NewPostInput(v, fileId, if creator.Some? then Some(creator.value.id) else None));
      IsAuthor(Some(d), Some(user)) <==> creator.Some? && creator.value.id == user.id
  {
  }

  // ---------------------------------------------------------------------------
  // Loading and deleting
  // ---------------------------------------------------------------------------

  /** What `handleDelete` leaves: the stores, and whether it navigated. */
  function DeleteOutcome(s: Stores, post: Option<Document>, confirmed: bool, docFails: bool, fileFails: bool): (Stores, bool) {
    if post.None? || !confirmed then (s, false)
    else
      var d := post.value;
      var deleted := !docFails && d.id in s.docs;
      var s1 := s.(docs := if deleted then s.docs - {d.id} else s.docs,
                   log := s.log + [DeleteDocument(d.id, deleted)]);
      if !deleted then (s1, false)
      else if HasFeaturedImage(d) then
        var img := d.featuredImage.value;
        var gone := !fileFails && img in s1.files;
        (s1.(files := if gone then s1.files - {img} else s1.files,
             publicFiles := if gone then s1.publicFiles - {img} else s1.publicFiles,
             log := s1.log + [StoreCall.DeleteFile(img, gone)]), true)
      else (s1, true)
  }

  /** Deleting touches the stores only after confirmation, removes the
      cover file only after the document is gone, and navigates home
      exactly when the document was deleted. */
  lemma DeleteOrder(s: Stores, post: Option<Document>, confirmed: bool, docFails: bool, fileFails: bool)
    ensures var (s1, navigated) := DeleteOutcome(s, post, confirmed, docFails, fileFails);
      && (post.None? || !confirmed ==> s1 == s && !navigated)
      && (navigated <==> post.Some? && confirmed && post.value.id in s.docs && post.value.id !in s1.docs)
      && (s1.files != s.files ==> navigated && HasFeaturedImage(post.value)
                                  && s1.files == s.files - {post.value.featuredImage.value})
      && (forall k :: k in s1.docs ==> k in s.docs && s1.docs[k] == s.docs[k])
  {
  }

  /** The state of the page. */
  class Page {
    /** The `:slug` route parameter; `None` when absent. */
    const slug: Option<string>
    var post: Option<Document>
    var loading: bool
    var loadError: string
    var effects: seq<Effect>

    constructor (slug: Option<string>)
      ensures this.slug == slug
      ensures post.None? && loading && loadError == "" && effects == []
    {
      this.slug := slug;
      post := None;
      loading := true;
      loadError := "";
      effects := [];
    }

    /** The load effect: no slug (or an empty one) redirects home at once;
        otherwise the post is fetched, and a falsy result redirects home. */
    method Load(svc: Service, fails: bool)
      requires svc.Valid()
      modifies this
      ensures slug.None? || slug.value == "" ==>
        effects == old(effects) + [Navigate("/")] && post == old(post) && loading == old(loading) && loadError == old(loadError)
      ensures slug.Some? && slug.value != "" ==>
        var found := !fails && slug.value in svc.docs;
        && loading == false && loadError == ""
        && (found ==> post == Some(svc.docs[slug.value]) && post.value.id == slug.value && effects == old(effects))
        && (!found ==> post == old(post) && effects == old(effects) + [Navigate("/")])
    {
      if slug.None? || slug.value == "" {
        effects := effects + [Navigate("/")];
        return;
      }
      loading := true;
      loadError := "";
      var doc := svc.GetPost(slug.value, fails);
      if doc.Some? {
        post := doc;
      } else {
        effects := effects + [Navigate("/")];
      }
      loading := false;
    }

    /** `handleDelete`, with `confirmed` the answer to the confirmation. */
    method HandleDelete(svc: Service, confirmed: bool, docFails: bool, fileFails: bool)
      requires svc.Valid()
      modifies this, svc
      ensures svc.Valid()
      ensures post == old(post) && loading == old(loading) && loadError == old(loadError)
      ensures var (s1, navigated) := DeleteOutcome(old(svc.Snapshot()), post, confirmed, docFails, fileFails);
        && svc.Snapshot() == s1
        && effects == old(effects) + (if navigated then [Navigate("/")] else [])
    {
      if post.None? || !confirmed {
        return;
      }
      var d := post.value;
      var deleted := svc.DeletePost(d.id, docFails);
      if deleted {
        if HasFeaturedImage(d) {
          var _ := svc.DeleteFile(d.featuredImage.value, fileFails);
        }
        effects := effects + [Navigate("/")];
      }
    }
  }
}
