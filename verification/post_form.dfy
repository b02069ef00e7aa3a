/**
 * The post editor (`PostForm`): the field rules react-hook-form enforces
 * before submitting, the watchers that keep the slug derived from the title,
 * and the submit handler that uploads the cover image and creates or
 * updates the post.
 *
 * The outcome of a submit is described by pure functions of the stores
 * before it (`SubmitOutcome`); the methods of `Editor` are proved to leave
 * the service and the component in exactly that outcome, and the lemmas at
 * the end state what the outcome guarantees.
 */
module PostForm {
  import opened Wrappers
  import opened JsText
  import opened Slug
  import opened Store
  import opened Ui

  // ---------------------------------------------------------------------------
  // Form values and field rules
  // ---------------------------------------------------------------------------

  /** The first entry of the `FileList` a file input yields: its MIME type
      (`type`) and its size in bytes. */
  datatype ImageFile = ImageFile(mimeType: string, size: nat)

  datatype Field = TitleField | SlugField | ImageField | StatusField

  /** The values react-hook-form hands to the submit handler. */
  datatype FormValues = FormValues(
    title: string,
    slug: string,
    content: string,
    status: string,
    image: seq<ImageFile>)

  /** The largest accepted cover image: 5 MB of 1024 * 1024 bytes. */
  const MaxImageBytes: nat := 5 * 1024 * 1024

  /** The MIME types the file input's `accept` attribute lists. */
  const AcceptedImageTypes: set<string> :=
    {"image/png", "image/jpg", "image/jpeg", "image/gif", "image/webp"}

  /** `/^image\/(png|jpe?g|gif|webp)$/.test(type)`, alternative by
      alternative; without the `m` flag `$` anchors at the very end. */
  predicate MatchesImageType(t: string) {
    && |t| >= 6 && t[..6] == "image/"
    && var sub := t[6..];
       || sub == "png"
       || sub == "jpg" || sub == "jpeg"
       || sub == "gif"
       || sub == "webp"
  }

  /** The image field's `validate` rule: `None` accepts, `Some(m)` is the
      message shown. Only the first file is looked at. */
  function ValidateImage(files: seq<ImageFile>): (r: Option<string>)
    ensures r.None? <==> |files| == 0 || (files[0].mimeType in AcceptedImageTypes && files[0].size <= MaxImageBytes)
    ensures |files| > 0 && files[0].mimeType !in AcceptedImageTypes ==> r == Some("Unsupported file type")
    ensures |files| > 0 && files[0].mimeType in AcceptedImageTypes && files[0].size > MaxImageBytes ==>
              r == Some("Image must be \U{2264} 5MB")
  {
    ImageRuleAgreesWithAcceptList(if |files| > 0 then files[0].mimeType else "");
    if |files| == 0 then None
    else if !MatchesImageType(files[0].mimeType) then Some("Unsupported file type")
    else if files[0].size > MaxImageBytes then Some("Image must be \U{2264} 5MB")
    else None
  }

  /** The rule registered on one field, `required` first, then `validate`;
      the image is required only when creating. `required` fails only on
      the empty string (or an empty file list), not on blanks. */
  function FieldRule(v: FormValues, isCreate: bool, f: Field): Option<string> {
    match f
    case TitleField => if v.title == "" then Some("Title is required") else None
    case SlugField => SlugRule(v.slug)
    case ImageField =>
      if isCreate && |v.image| == 0 then Some("Featured image is required") else ValidateImage(v.image)
    case StatusField => if v.status == "" then Some("Status is required") else None
  }

  /** The slug field's rules: required, then a fixpoint of `slugTransform`. */
  function SlugRule(slug: string): (r: Option<string>)
    ensures r.None? <==> slug != "" && IsCanonical(slug)
    ensures slug == "" ==> r == Some("Slug is required")
    ensures slug != "" && !IsCanonical(slug) ==>
              r == Some("Slug may only contain lowercase letters, numbers and hyphens")
  {
    FixpointIffCanonical(slug);
    if slug == "" then Some("Slug is required")
    else if SlugTransform(Some(slug)) != slug then Some("Slug may only contain lowercase letters, numbers and hyphens")
    else None
  }

  const AllFields: set<Field> := {TitleField, SlugField, ImageField, StatusField}

  /** No field rule fails, so `handleSubmit` calls the handler. */
  predicate RulesPass(v: FormValues, isCreate: bool) {
    && FieldRule(v, isCreate, TitleField).None?
    && FieldRule(v, isCreate, SlugField).None?
    && FieldRule(v, isCreate, ImageField).None?
    && FieldRule(v, isCreate, StatusField).None?
  }

  /** The errors `handleSubmit` leaves after validating every field. */
  function RuleErrors(v: FormValues, isCreate: bool): map<Field, string> {
    map f | f in AllFields && FieldRule(v, isCreate, f).Some? :: FieldRule(v, isCreate, f).value
  }

  /** `errors` after a validation of field `f` that produced `o`. */
  function WithRule(errors: map<Field, string>, f: Field, o: Option<string>): map<Field, string> {
    if o.Some? then errors[f := o.value] else errors - {f}
  }

  /** The checks at the top of the submit handler, in their order; a value
      that is all white space is one whose `trim()` is empty. */
  function GuardError(v: FormValues, isCreate: bool): (r: Option<(Field, string)>)
    ensures r.None? <==> !AllWhitespace(v.title) && !AllWhitespace(v.slug) && (isCreate ==> |v.image| > 0)
  {
    if AllWhitespace(v.title) then Some((TitleField, "Title is required"))
    else if AllWhitespace(v.slug) then Some((SlugField, "Slug is required"))
    else if isCreate && |v.image| == 0 then Some((ImageField, "Please select a featured image"))
    else None
  }

  /** The guards in the source's own terms: `!data.title?.trim()` stops
      with "Title is required", and the submit goes ahead exactly when the
      trimmed title and slug are non-empty and, when creating, a file is
      chosen. */
  lemma GuardsUseTrim(v: FormValues, isCreate: bool)
    ensures GuardError(v, isCreate).None? <==> Trim(v.title) != "" && Trim(v.slug) != "" && (isCreate ==> |v.image| > 0)
    ensures Trim(v.title) == "" ==> GuardError(v, isCreate) == Some((TitleField, "Title is required"))
    ensures Trim(v.title) != "" && Trim(v.slug) == "" ==> GuardError(v, isCreate) == Some((SlugField, "Slug is required"))
  {
    TrimEmptyIffBlank(v.title);
    TrimEmptyIffBlank(v.slug);
  }

  // ---------------------------------------------------------------------------
  // What one submit does
  // ---------------------------------------------------------------------------

  /** What the environment decides during one submit: the id `ID.unique()`
      yields for the upload, and which remote calls fail. */
  datatype Remote = Remote(newFileId: string, uploadFails: bool, deleteFails: bool, writeFails: bool)

  /** The stores afterwards, the field error set by a guard, the message of
      the error thrown inside the handler, and where it navigated. */
  datatype Outcome = Outcome(
    stores: Stores,
    fieldError: Option<(Field, string)>,
    thrown: Option<string>,
    navigateTo: Option<string>)

  /** The banner text when the thrown error has no message. */
  const SaveFallback := "Something went wrong while saving your post."

  /** The argument of `createPost`. */
  function NewPostInput(v: FormValues, fileId: string, userId: Option<string>): PostInput {
    PostInput(Trim(v.title), Trim(v.slug), v.content, Some(fileId), v.status, userId)
  }

  /** The argument of `updatePost`: `featuredImage` only when a new image
      was uploaded. */
  function EditPatch(v: FormValues, newImage: Option<string>): Patch {
    Patch(Some(Trim(v.title)), Some(v.content), newImage, Some(v.status))
  }

  /** Whether `uploadFile` succeeds on stores `s`. */
  predicate Uploaded(s: Stores, r: Remote) {
    !r.uploadFails && r.newFileId !in s.files
  }

  /** The stores after `uploadFile`. */
  function AfterUpload(s: Stores, r: Remote): Stores {
    var log := s.log + [CreateFile(r.newFileId, Uploaded(s, r))];
    if Uploaded(s, r) then s.(files := s.files + {r.newFileId}, publicFiles := s.publicFiles + {r.newFileId}, log := log)
    else s.(log := log)
  }

  /** The create branch: upload, give up unless the upload produced an id,
      then create the document keyed by the trimmed slug. */
  function CreateOutcome(s: Stores, v: FormValues, userId: Option<string>, r: Remote): (o: Outcome)
    ensures o.fieldError.None?
  {
    var s1 := AfterUpload(s, r);
    if !Uploaded(s, r) || r.newFileId == "" then Outcome(s1, None, Some("Image upload failed."), None)
    else
      var input := NewPostInput(v, r.newFileId, userId);
      var created := !r.writeFails && input.slug !in s1.docs;
      var s2 := s1.(docs := if created then s1.docs[input.slug := NewDocument(input)] else s1.docs,
                    log := s1.log + [CreateDocument(input.slug, created)]);
      if created then Outcome(s2, None, None, Some("/post/" + input.slug))
      else Outcome(s2, None, Some("Failed to create post"), None)
  }

  /** `deleteFile(post.featuredImage)` when the post has one; its result is
      ignored. */
  function DeleteOldImage(s: Stores, post: Document, r: Remote): (s1: Stores)
    ensures s1.docs == s.docs
    ensures s1.files == s.files || (HasFeaturedImage(post) && s1.files == s.files - {post.featuredImage.value})
    ensures s1.log == s.log + (if HasFeaturedImage(post) then [StoreCall.DeleteFile(post.featuredImage.value, s1.files != s.files)] else [])
  {
    if HasFeaturedImage(post) then
      var oldId := post.featuredImage.value;
      var deleted := !r.deleteFails && oldId in s.files;
      s.(files := if deleted then s.files - {oldId} else s.files,
         publicFiles := if deleted then s.publicFiles - {oldId} else s.publicFiles,
         log := s.log + [StoreCall.DeleteFile(oldId, deleted)])
    else s
  }

  /** The update branch: with a new image, upload it, give up unless that
      produced an id, and delete the old image; then update the document. */
  function UpdateOutcome(s: Stores, v: FormValues, post: Document, r: Remote): (o: Outcome)
    ensures o.fieldError.None?
  {
    if |v.image| > 0 then
      if !Uploaded(s, r) || r.newFileId == "" then Outcome(AfterUpload(s, r), None, Some("Image upload failed."), None)
      else WriteOutcome(DeleteOldImage(AfterUpload(s, r), post, r), v, post, Some(r.newFileId), r)
    else WriteOutcome(s, v, post, None, r)
  }

  /** `updatePost(post.$id, …)` and what the handler does with its result. */
  function WriteOutcome(s: Stores, v: FormValues, post: Document, newImage: Option<string>, r: Remote): (o: Outcome)
    ensures o.fieldError.None?
  {
    var patch := EditPatch(v, newImage);
    var updated := !r.writeFails && post.id in s.docs;
    var s1 := s.(docs := if updated then s.docs[post.id := ApplyPatch(s.docs[post.id], patch)] else s.docs,
                 log := s.log + [UpdateDocument(post.id, patch, updated)]);
    if updated && post.id != "" then Outcome(s1, None, None, Some("/post/" + post.id))
    else Outcome(s1, None, Some("Failed to update post."), None)
  }

  /** `onSubmit(data)`: a guard's field error, or the create or update branch. */
  function SubmitOutcome(s: Stores, v: FormValues, post: Option<Document>, userId: Option<string>, r: Remote): (o: Outcome)
    ensures o.fieldError == GuardError(v, post.None?)
    ensures o.fieldError.Some? ==> o.stores == s && o.thrown.None? && o.navigateTo.None?
  {
    match GuardError(v, post.None?)
    case Some(g) => Outcome(s, Some(g), None, None)
    case None =>
      if post.None? then CreateOutcome(s, v, userId, r) else UpdateOutcome(s, v, post.value, r)
  }

  // ---------------------------------------------------------------------------
  // The component
  // ---------------------------------------------------------------------------

  class Editor {
    /** The post being edited; `None` when creating. */
    const post: Option<Document>
    /** `userData?.$id` from the auth slice. */
    const userId: Option<string>

    var values: FormValues
    var errors: map<Field, string>
    /** The banner above the form; "" shows none. */
    var formError: string
    var effects: seq<Effect>

    /** `defaultValues`: the post's fields, or empty ones and status
        "active" when creating. */
    constructor (post: Option<Document>, userId: Option<string>)
      ensures this.post == post && this.userId == userId
      ensures post.None? ==> values == FormValues("", "", "", "active", [])
      ensures post.Some? ==> values == FormValues(post.value.title, post.value.id, post.value.content,
                                                  if post.value.status == "" then "active" else post.value.status, [])
      ensures errors == map[] && formError == "" && effects == []
    {
      this.post := post;
      this.userId := userId;
      if post.None? {
        values := FormValues("", "", "", "active", []);
      } else {
        var p := post.value;
        values := FormValues(p.title, p.id, p.content, if p.status == "" then "active" else p.status, []);
      }
      errors := map[];
      formError := "";
      effects := [];
    }

    /** Typing in the title: its own error is cleared and the watcher sets
        the slug to the title's slug form, validating it. */
    method OnTitleChange(title: string)
      modifies this
      ensures values == old(values).(title := title, slug := SlugTransform(Some(title)))
      ensures errors == WithRule(old(errors) - {TitleField}, SlugField, SlugRule(values.slug))
      ensures formError == old(formError) && effects == old(effects)
    {
      values := values.(title := title);
      errors := errors - {TitleField};
      var next := SlugTransform(Some(title));
      values := values.(slug := next);
      errors := WithRule(errors, SlugField, SlugRule(next));
    }

    /** Editing the content, choosing a cover image or picking a status:
        the value is replaced and the errors stay as they are (the
        re-validation of touched fields is not part of this model). */
    method OnContentChange(content: string)
      modifies this
      ensures values == old(values).(content := content)
      ensures errors == old(errors) && formError == old(formError) && effects == old(effects)
    {
      values := values.(content := content);
    }

    method OnImageChange(image: seq<ImageFile>)
      modifies this
      ensures values == old(values).(image := image)
      ensures errors == old(errors) && formError == old(formError) && effects == old(effects)
    {
      values := values.(image := image);
    }

    method OnStatusChange(status: string)
      modifies this
      ensures values == old(values).(status := status)
      ensures errors == old(errors) && formError == old(formError) && effects == old(effects)
    {
      values := values.(status := status);
    }

    /** Typing in the slug: a value that is not in slug form is replaced by
        its slug form and validated; then the slug error is cleared, which
        the validation (asynchronous) overrides when it ran. */
    method OnSlugInput(typed: string)
      modifies this
      ensures values == old(values).(slug := SlugTransform(Some(typed)))
      ensures errors == if values.slug != typed then WithRule(old(errors), SlugField, SlugRule(values.slug))
                        else old(errors) - {SlugField}
      ensures formError == old(formError) && effects == old(effects)
    {
      var transformed := SlugTransform(Some(typed));
      values := values.(slug := transformed);
      if transformed != typed {
        errors := WithRule(errors, SlugField, SlugRule(transformed));
      } else {
        errors := errors - {SlugField};
      }
    }

    /** `handleSubmit(onSubmit)`: validates every field; only when none
        fails does the handler run. */
    method Submit(svc: Service, remote: Remote)
      requires svc.Valid()
      modifies this, svc
      ensures svc.Valid()
      ensures values == old(values)
      ensures !RulesPass(values, post.None?) ==>
        && errors == RuleErrors(values, post.None?)
        && unchanged(svc) && formError == old(formError) && effects == old(effects)
      ensures RulesPass(values, post.None?) ==>
        var o := SubmitOutcome(old(svc.Snapshot()), values, post, userId, remote);
        && svc.Snapshot() == o.stores
        && errors == (if o.fieldError.Some? then map[o.fieldError.value.0 := o.fieldError.value.1] else map[])
        && formError == (if o.thrown.Some? then ErrorText(o.thrown.value, SaveFallback) else "")
        && effects == old(effects) + (if o.navigateTo.Some? then [Navigate(o.navigateTo.value)] else [])
    {
      if RulesPass(values, post.None?) {
        errors := map[];
        OnSubmit(svc, remote);
      } else {
        errors := RuleErrors(values, post.None?);
      }
    }

    /** `onSubmit(data)`: clears the banner, runs the guards, then creates or
        updates; a thrown error becomes the banner. */
    method OnSubmit(svc: Service, remote: Remote)
      requires svc.Valid()
      modifies this, svc
      ensures svc.Valid()
      ensures values == old(values)
      ensures var o := SubmitOutcome(old(svc.Snapshot()), values, post, userId, remote);
        && svc.Snapshot() == o.stores
        && errors == (if o.fieldError.Some? then old(errors)[o.fieldError.value.0 := o.fieldError.value.1] else old(errors))
        && formError == (if o.thrown.Some? then ErrorText(o.thrown.value, SaveFallback) else "")
        && effects == old(effects) + (if o.navigateTo.Some? then [Navigate(o.navigateTo.value)] else [])
    {
      ghost var s0 := svc.Snapshot();
      formError := "";
      var guard := GuardError(values, post.None?);
      if guard.Some? {
        assert SubmitOutcome(s0, values, post, userId, remote) == Outcome(s0, guard, None, None);
        errors := errors[guard.value.0 := guard.value.1];
        assert errors == old(errors)[guard.value.0 := guard.value.1];
        return;
      }
      var thrown, target := Save(svc, values, post, userId, remote);
      if thrown.Some? {
        formError := ErrorText(thrown.value, SaveFallback);
      }
      if target.Some? {
        effects := effects + [Navigate(target.value)];
      }
      assert errors == old(errors);
    }
  }

  /** What `onSubmit` does once its guards pass: the message it throws and
      where it navigates. */
  method Save(svc: Service, v: FormValues, post: Option<Document>, userId: Option<string>, remote: Remote)
    returns (thrown: Option<string>, navigateTo: Option<string>)
    requires svc.Valid() && GuardError(v, post.None?).None?
    modifies svc
    ensures svc.Valid()
    ensures var o := SubmitOutcome(old(svc.Snapshot()), v, post, userId, remote);
      && svc.Snapshot() == o.stores && thrown == o.thrown && navigateTo == o.navigateTo
      && o.fieldError.None?
  {
    if post.None? {
      thrown, navigateTo := SaveNew(svc, v, userId, remote);
    } else {
      thrown, navigateTo := SaveEdit(svc, v, post.value, remote);
    }
  }

  /** The create branch of `onSubmit`: the message it throws and where it
      navigates. */
  method SaveNew(svc: Service, v: FormValues, userId: Option<string>, remote: Remote)
    returns (thrown: Option<string>, navigateTo: Option<string>)
    requires svc.Valid()
    modifies svc
    ensures svc.Valid()
    ensures var o := CreateOutcome(old(svc.Snapshot()), v, userId, remote);
      svc.Snapshot() == o.stores && thrown == o.thrown && navigateTo == o.navigateTo
  {
    ghost var s0 := svc.Snapshot();
    var file := svc.UploadFile(remote.newFileId, remote.uploadFails);
    assert svc.Snapshot() == AfterUpload(s0, remote);
    if file.None? || file.value == "" {
      return Some("Image upload failed."), None;
    }
    var created := svc.CreatePost(NewPostInput(v, file.value, userId), remote.writeFails);
    match created
    case Threw(m) =>
      thrown, navigateTo := Some(m), None;
    case Ok(d) =>
      thrown, navigateTo := None, Some("/post/" + d.id);
  }

  /** The update branch of `onSubmit`. */
  method SaveEdit(svc: Service, v: FormValues, post: Document, remote: Remote)
    returns (thrown: Option<string>, navigateTo: Option<string>)
    requires svc.Valid()
    modifies svc
    ensures svc.Valid()
    ensures var o := UpdateOutcome(old(svc.Snapshot()), v, post, remote);
      svc.Snapshot() == o.stores && thrown == o.thrown && navigateTo == o.navigateTo
  {
    ghost var s0 := svc.Snapshot();
    var newImage: Option<string> := None;
    if |v.image| > 0 {
      var uploaded := svc.UploadFile(remote.newFileId, remote.uploadFails);
      assert svc.Snapshot() == AfterUpload(s0, remote);
      if uploaded.None? || uploaded.value == "" {
        return Some("Image upload failed."), None;
      }
      newImage := uploaded;
      ghost var s1 := svc.Snapshot();
      if HasFeaturedImage(post) {
        var _ := svc.DeleteFile(post.featuredImage.value, remote.deleteFails);
      }
      assert svc.Snapshot() == DeleteOldImage(s1, post, remote);
    }
    thrown, navigateTo := WriteEdit(svc, v, post, newImage, remote);
  }

  /** `updatePost(post.$id, …)` and the message or navigation that follows. */
  method WriteEdit(svc: Service, v: FormValues, post: Document, newImage: Option<string>, remote: Remote)
    returns (thrown: Option<string>, navigateTo: Option<string>)
    requires svc.Valid()
    modifies svc
    ensures svc.Valid()
    ensures var o := WriteOutcome(old(svc.Snapshot()), v, post, newImage, remote);
      svc.Snapshot() == o.stores && thrown == o.thrown && navigateTo == o.navigateTo
  {
    var updated := svc.UpdatePost(post.id, EditPatch(v, newImage), remote.writeFails);
    if updated.Some? && updated.value.id != "" {
      thrown, navigateTo := None, Some("/post/" + updated.value.id);
    } else {
      thrown, navigateTo := Some("Failed to update post."), None;
    }
  }

  // ---------------------------------------------------------------------------
  // Properties
  // ---------------------------------------------------------------------------

  /** The type pattern of the image rule accepts exactly the MIME types the
      file input's `accept` attribute offers. */
  lemma ImageRuleAgreesWithAcceptList(t: string)
    ensures MatchesImageType(t) <==> t in AcceptedImageTypes
  {
    if MatchesImageType(t) {
      assert t == t[..6] + t[6..];
    }
    if t == "image/png" || t == "image/jpg" || t == "image/jpeg" || t == "image/gif" || t == "image/webp" {
      assert t[..6] == "image/";
    }
  }

  /** The slug the title watcher derives fails its rule only as "required",
      and exactly when the title has no letter or digit. */
  lemma DerivedSlugRule(title: string)
    ensures SlugRule(SlugTransform(Some(title))) ==
            if Alnums(Lower(title)) == "" then Some("Slug is required") else None
  {
    EmptyIffNoAlnum(title);
  }

  /** Once every field rule passes, the only guard of the handler that can
      still fire is the one for a title made of blanks. */
  lemma GuardsAfterRules(v: FormValues, isCreate: bool)
    requires RulesPass(v, isCreate)
    ensures GuardError(v, isCreate) == if Trim(v.title) == "" then Some((TitleField, "Title is required")) else None
    ensures Trim(v.slug) == v.slug && IsCanonical(v.slug)
  {
    assert SlugRule(v.slug).None?;
    CanonicalTrimsToItself(v.slug);
    GuardsUseTrim(v, isCreate);
    assert Trim(v.slug) == v.slug != "";
  }

  /** Slug characters are never white space, so a slug is its own trim. */
  lemma CanonicalTrimsToItself(s: string)
    requires IsCanonical(s)
    ensures Trim(s) == s
  {
    if |s| > 0 {
      assert IsSlugChar(s[0]) && IsSlugChar(s[|s| - 1]);
    }
    TrimIdentity(s);
  }

  /** A create that navigates stored exactly one new document: keyed by the
      slug as typed (already canonical), carrying the trimmed title and the
      uploaded image, which is in the bucket and public. */
  lemma CreatedPostIsWellFormed(s: Stores, v: FormValues, userId: Option<string>, r: Remote)
    requires RulesPass(v, true) && Trim(v.title) != ""
    requires SubmitOutcome(s, v, None, userId, r).navigateTo.Some?
    ensures var o := SubmitOutcome(s, v, None, userId, r);
      && o.navigateTo == Some("/post/" + v.slug)
      && v.slug !in s.docs && IsCanonical(v.slug)
      && o.stores.docs == s.docs[v.slug := Document(v.slug, Trim(v.title), v.content, Some(r.newFileId), v.status, userId)]
      && r.newFileId in o.stores.files && r.newFileId in o.stores.publicFiles
  {
    GuardsAfterRules(v, true);
    assert SubmitOutcome(s, v, None, userId, r) == CreateOutcome(s, v, userId, r);
    CreateThatNavigates(s, v, userId, r);
  }

  lemma CreateThatNavigates(s: Stores, v: FormValues, userId: Option<string>, r: Remote)
    requires CreateOutcome(s, v, userId, r).navigateTo.Some?
    ensures var o := CreateOutcome(s, v, userId, r);
      var slug := Trim(v.slug);
      && o.navigateTo == Some("/post/" + slug)
      && slug !in s.docs
      && o.stores.docs == s.docs[slug := Document(slug, Trim(v.title), v.content, Some(r.newFileId), v.status, userId)]
      && r.newFileId in o.stores.files && r.newFileId in o.stores.publicFiles
  {
  }

  /** The create branch touches the stores in a fixed order: the upload
      first, and a document only when the upload produced an id; a document
      that fails to be created leaves its uploaded image behind. */
  lemma CreateOrder(s: Stores, v: FormValues, userId: Option<string>, r: Remote)
    ensures var o := CreateOutcome(s, v, userId, r);
      var uploaded := !r.uploadFails && r.newFileId !in s.files;
      && |o.stores.log| > |s.log| && o.stores.log[..|s.log|] == s.log
      && o.stores.log[|s.log|] == CreateFile(r.newFileId, uploaded)
      && (o.stores.docs != s.docs ==> uploaded && r.newFileId != "")
      && (o.thrown == Some("Failed to create post") ==> r.newFileId in o.stores.files - s.files)
      && (o.thrown.Some? <==> o.navigateTo.None?)
  {
    CreateLogStartsWithUpload(s, v, userId, r);
    CreateWritesOnlyAfterUpload(s, v, userId, r);
  }

  lemma CreateLogStartsWithUpload(s: Stores, v: FormValues, userId: Option<string>, r: Remote)
    ensures var o := CreateOutcome(s, v, userId, r);
      && |o.stores.log| > |s.log| && o.stores.log[..|s.log|] == s.log
      && o.stores.log[|s.log|] == CreateFile(r.newFileId, Uploaded(s, r))
  {
    var s1 := AfterUpload(s, r);
    var o := CreateOutcome(s, v, userId, r);
    assert s1.log == s.log + [CreateFile(r.newFileId, Uploaded(s, r))];
    assert exists tail :: o.stores.log == s1.log + tail by {
      if Uploaded(s, r) && r.newFileId != "" {
        var input := NewPostInput(v, r.newFileId, userId);
        var created := !r.writeFails && input.slug !in s1.docs;
        assert o.stores.log == s1.log + [CreateDocument(input.slug, created)];
      } else {
        assert o.stores.log == s1.log + [];
      }
    }
  }

  lemma CreateWritesOnlyAfterUpload(s: Stores, v: FormValues, userId: Option<string>, r: Remote)
    ensures var o := CreateOutcome(s, v, userId, r);
      && (o.stores.docs != s.docs ==> Uploaded(s, r) && r.newFileId != "")
      && (o.thrown == Some("Failed to create post") ==> r.newFileId in o.stores.files - s.files)
      && (o.thrown.Some? <==> o.navigateTo.None?)
  {
  }

  /** The update branch never creates or removes a document, changes at
      most the edited one, deletes only the old image and only after the new
      one was uploaded, and leaves the files alone when no image was chosen. */
  lemma UpdateTouchesOnlyThePost(s: Stores, v: FormValues, post: Document, r: Remote)
    ensures var o := UpdateOutcome(s, v, post, r);
      && o.stores.docs.Keys == s.docs.Keys
      && (forall k :: k in s.docs && k != post.id ==> o.stores.docs[k] == s.docs[k])
      && (|v.image| == 0 ==> o.stores.files == s.files)
      && (forall f :: f in s.files && f !in o.stores.files ==>
            && |v.image| > 0 && Uploaded(s, r) && r.newFileId != ""
            && HasFeaturedImage(post) && f == post.featuredImage.value && r.newFileId in o.stores.files)
  {
    UpdateKeepsOtherPosts(s, v, post, r);
    UpdateDeletesOnlyOldCover(s, v, post, r);
  }

  /** The update branch calls the stores in a fixed order: with a new
      image, the upload first, then the delete of the old cover (when the
      post has one), then `updatePost`; a failed upload stops after the
      upload; without a new image, only `updatePost`. */
  lemma UpdateOrder(s: Stores, v: FormValues, post: Document, r: Remote)
    ensures var o := UpdateOutcome(s, v, post, r);
      var write := UpdateDocument(post.id, EditPatch(v, if |v.image| > 0 then Some(r.newFileId) else None),
                                  !r.writeFails && post.id in s.docs);
      && (|v.image| == 0 ==> o.stores.log == s.log + [write])
      && (|v.image| > 0 && !(Uploaded(s, r) && r.newFileId != "") ==>
            o.stores.log == s.log + [CreateFile(r.newFileId, Uploaded(s, r))])
      && (|v.image| > 0 && Uploaded(s, r) && r.newFileId != "" ==>
            o.stores.log == s.log + ([CreateFile(r.newFileId, true)]
              + ((if HasFeaturedImage(post)
                  then [StoreCall.DeleteFile(post.featuredImage.value,
                                             !r.deleteFails && post.featuredImage.value in s.files + {r.newFileId})]
                  else [])
              + [write])))
  {
    if |v.image| > 0 && Uploaded(s, r) && r.newFileId != "" {
      var s1 := AfterUpload(s, r);
      var s2 := DeleteOldImage(s1, post, r);
      assert s1.log == s.log + [CreateFile(r.newFileId, true)];
      assert s1.files == s.files + {r.newFileId};
      var o := WriteOutcome(s2, v, post, Some(r.newFileId), r);
      assert o.stores.log == s2.log + [UpdateDocument(post.id, EditPatch(v, Some(r.newFileId)), !r.writeFails && post.id in s.docs)];
    }
  }

  lemma UpdateKeepsOtherPosts(s: Stores, v: FormValues, post: Document, r: Remote)
    ensures var o := UpdateOutcome(s, v, post, r);
      && o.stores.docs.Keys == s.docs.Keys
      && (forall k :: k in s.docs && k != post.id ==> o.stores.docs[k] == s.docs[k])
  {
    var before := if |v.image| > 0 && Uploaded(s, r) && r.newFileId != "" then DeleteOldImage(AfterUpload(s, r), post, r) else s;
    assert before.docs == s.docs;
  }

  lemma UpdateDeletesOnlyOldCover(s: Stores, v: FormValues, post: Document, r: Remote)
    ensures var o := UpdateOutcome(s, v, post, r);
      && (|v.image| == 0 ==> o.stores.files == s.files)
      && (forall f :: f in s.files && f !in o.stores.files ==>
            && |v.image| > 0 && Uploaded(s, r) && r.newFileId != ""
            && HasFeaturedImage(post) && f == post.featuredImage.value && r.newFileId in o.stores.files)
  {
    if |v.image| == 0 {
      WriteKeepsFiles(s, v, post, None, r);
    } else if Uploaded(s, r) && r.newFileId != "" {
      var s1 := AfterUpload(s, r);
      var s2 := DeleteOldImage(s1, post, r);
      WriteKeepsFiles(s2, v, post, Some(r.newFileId), r);
    }
  }

  lemma WriteKeepsFiles(s: Stores, v: FormValues, post: Document, newImage: Option<string>, r: Remote)
    ensures WriteOutcome(s, v, post, newImage, r).stores.files == s.files
  {
  }

  /** A successful update keeps the post's id and author, stores the new
      fields, and points at the new image exactly when one was chosen. */
  lemma UpdatedPostContents(s: Stores, v: FormValues, post: Document, r: Remote)
    requires UpdateOutcome(s, v, post, r).navigateTo.Some?
    ensures UpdateOutcome(s, v, post, r).navigateTo == Some("/post/" + post.id)
    ensures post.id in s.docs && post.id in UpdateOutcome(s, v, post, r).stores.docs
    ensures UpdateOutcome(s, v, post, r).stores.docs[post.id] ==
            ApplyPatch(s.docs[post.id], EditPatch(v, if |v.image| > 0 then Some(r.newFileId) else None))
  {
    var newImage := if |v.image| > 0 then Some(r.newFileId) else None;
    var before := if |v.image| > 0 then DeleteOldImage(AfterUpload(s, r), post, r) else s;
    assert before.docs == s.docs;
    assert UpdateOutcome(s, v, post, r) == WriteOutcome(before, v, post, newImage, r);
  }

  /** The old image is deleted before the document is updated, so an update
      that then fails leaves the stored post pointing at a deleted file. */
  lemma FailedUpdateCanLeaveDanglingImage(s: Stores, v: FormValues, post: Document, r: Remote)
    requires post.id in s.docs && s.docs[post.id] == post && HasFeaturedImage(post)
    requires post.featuredImage.value in s.files && post.featuredImage.value != r.newFileId
    requires |v.image| > 0 && r.newFileId != "" && r.newFileId !in s.files
    requires !r.uploadFails && !r.deleteFails && r.writeFails
    ensures var o := UpdateOutcome(s, v, post, r);
      && o.thrown == Some("Failed to update post.")
      && o.stores.docs[post.id].featuredImage == post.featuredImage
      && post.featuredImage.value !in o.stores.files
  {
  }
}
