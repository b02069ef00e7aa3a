# A verified model of the blog client

This project is a Dafny model of the core of a React blog client. The client
stores its posts and cover images on an Appwrite backend. The model covers
these parts of the client:

- **Post service** (`store.dfy`, module `Store`). The remote document store
  is a map from slug to post and the blob store is a set of file ids. A ghost
  log records every mutating call and whether it succeeded. Each remote call
  takes a `fails` flag for failures the client cannot see. A missing id, or
  a create on an existing id, fails whatever the flag says.
- **Slug normaliser** (`slug.dfy`, module `Slug`) and the JavaScript string
  primitives it uses (`js_text.dfy`, module `JsText`): trim, lower-casing and
  the white-space class.
- **Post editor** (`post_form.dfy`, module `PostForm`):
  - the field rules react-hook-form checks;
  - the title-to-slug watcher and the slug input handler;
  - the submit handler, which uploads the cover image and then creates or
    updates the post.

  What one submit does is a pure function of the stores before it
  (`SubmitOutcome`). The methods of `Editor` are proved to leave the service
  and the component in exactly that outcome.
- **Post page** (`post_page.dfy`, module `PostPage`):
  - loading the post named by the route;
  - the cover image's preview-then-original-then-placeholder fallback;
  - the author check;
  - deleting a post.
- **Header** (`header.dfy`, module `Header`): the navigation entries by
  sign-in state, the "active link" test, the mobile menu flag and logging out.
- **Log-in and sign-up forms** (`credentials.dfy`, `login.dfy`, `signup.dfy`):
  the email pattern, the length rules, and the submit flows through the auth
  service. The calls the components make are recorded as effects
  (`ui.dfy`, module `Ui`).
- **Button** (`button.dfy`, module `Button`): how its props become the class
  string and the attributes of the rendered `<button>`.

Things outside the client's own code are parameters:

- the answers of the auth service;
- the id `ID.unique()` produces;
- whether a remote call fails;
- whether the storage SDK throws while building a URL;
- the answer to the delete confirmation.

## Model

| member | source | states |
|---|---|---|
| `Slug.SlugTransform` | src/components/post-form/PostForm.jsx:36-44 | A missing or non-string value gives ""; every result consists of lower-case letters, digits and single interior hyphens, with no hyphen at either end |
| `Slug.FixpointIffCanonical` | src/components/post-form/PostForm.jsx:211-213 | The slug rule `slugTransform(v) === v` accepts exactly the canonical strings |
| `Slug.Idempotent` | src/components/post-form/PostForm.jsx:36-44 | Normalising a slug a second time changes nothing |
| `Slug.KeepsLettersAndDigits` | src/components/post-form/PostForm.jsx:38-43 | Deleting the hyphens from the slug leaves exactly the lower-cased letters and digits of the input, in their order |
| `Slug.EmptyIffNoAlnum` | src/components/post-form/PostForm.jsx:38-43 | The slug is empty exactly when the lower-cased input has no letter or digit |
| `JsText.TrimEmptyIffBlank` | src/components/post-form/PostForm.jsx:77-84 | `!s.trim()` holds exactly when every character is white space |
| `PostForm.ValidateImage` | src/components/post-form/PostForm.jsx:248-257 | An absent file passes; otherwise the file passes iff its type is an accepted image type and it is at most 5 MB; the two messages for the two failures |
| `PostForm.ImageRuleAgreesWithAcceptList` | src/components/post-form/PostForm.jsx:242-251 | The MIME-type pattern of the rule accepts exactly the types the input's `accept` list offers |
| `PostForm.SlugRule` | src/components/post-form/PostForm.jsx:209-213 | The slug passes iff it is non-empty and canonical; "Slug is required" for the empty slug, the format message otherwise |
| `PostForm.GuardError` | src/components/post-form/PostForm.jsx:77-96 | The handler's guards let a submit through iff title and slug are not blank and, when creating, a file is chosen |
| `PostForm.SubmitOutcome` | src/components/post-form/PostForm.jsx:73-151 | The field error is the guards' answer; a guard that fires stops the handler before any store call, with nothing thrown and no navigation |
| `PostForm.GuardsUseTrim` | src/components/post-form/PostForm.jsx:77-84 | The same guards in terms of `trim()`, with the message each sets |
| `PostForm.DerivedSlugRule` | src/components/post-form/PostForm.jsx:47-55 | The slug the title watcher sets fails only as "required", and exactly when the title has no letter or digit |
| `PostForm.GuardsAfterRules` | src/components/post-form/PostForm.jsx:169 | Once every field rule passed, the only guard that can still fire is the blank-title one, and the slug is canonical and its own trim |
| `PostForm.CanonicalTrimsToItself` | src/components/post-form/PostForm.jsx:105 | Trimming a valid slug before storing it changes nothing |
| `PostForm.CreateOutcome` | src/components/post-form/PostForm.jsx:98-117 | The create branch sets no field error: only a thrown message or a navigation |
| `PostForm.NewPostInput` | src/components/post-form/PostForm.jsx:103-110 | The `createPost` payload (trimmed title and slug, the uploaded file, the author); `PostForm.CreatedPostIsWellFormed` states the document it creates |
| `PostForm.EditPatch` | src/components/post-form/PostForm.jsx:138-144 | The `updatePost` patch, with `featuredImage` only when a new image was uploaded; `PostForm.UpdatedPostContents` states the post it produces |
| `PostForm.DeleteOldImage` | src/components/post-form/PostForm.jsx:128-134 | Leaves the posts alone, removes at most the old cover from the files, and logs one delete exactly when the post has a cover |
| `PostForm.UpdateOutcome` | src/components/post-form/PostForm.jsx:120-151 | The update branch sets no field error; `PostForm.UpdateOrder` states the order of its store calls |
| `PostForm.UpdateOrder` | src/components/post-form/PostForm.jsx:120-145 | For every input: with a new image, the upload, then the delete of the old cover when there is one, then `updatePost`; a failed upload stops after the upload; without a new image only `updatePost` is called |
| `PostForm.WriteOutcome` | src/components/post-form/PostForm.jsx:138-151 | Handling the `updatePost` result sets no field error |
| `PostForm.Editor.constructor` | src/components/post-form/PostForm.jsx:24-31 | Default values come from the edited post, or are empty with status "active"; no errors and no banner |
| `PostForm.Editor.OnTitleChange` | src/components/post-form/PostForm.jsx:47-55 | Typing a title clears its error and sets the slug to the title's slug form, validated |
| `PostForm.Editor.OnSlugInput` | src/components/post-form/PostForm.jsx:214-220 | A typed slug is replaced by its slug form; the slug error is revalidated when it changed and cleared otherwise |
| `PostForm.Editor.OnContentChange` | src/components/post-form/PostForm.jsx:229-234 | Replaces the content; errors, banner and effects unchanged |
| `PostForm.Editor.OnImageChange` | src/components/post-form/PostForm.jsx:240-259 | Replaces the chosen files; errors, banner and effects unchanged |
| `PostForm.Editor.OnStatusChange` | src/components/post-form/PostForm.jsx:284-291 | Replaces the status; errors, banner and effects unchanged |
| `PostForm.Editor.Submit` | src/components/post-form/PostForm.jsx:169 | A failing field rule leaves all failing rules as errors and touches nothing else; otherwise the handler runs to the submit outcome |
| `PostForm.Editor.OnSubmit` | src/components/post-form/PostForm.jsx:73-157 | The stores end as the submit outcome says; a guard sets its field error; a thrown message (or the fallback text) becomes the banner; success navigates to the post |
| `PostForm.Save` | src/components/post-form/PostForm.jsx:86-151 | Past the guards, the stores, the thrown message and the navigation are those of the submit outcome |
| `PostForm.SaveNew` | src/components/post-form/PostForm.jsx:98-117 | Upload, then create: the result is the create outcome |
| `PostForm.SaveEdit` | src/components/post-form/PostForm.jsx:120-151 | Upload a new image and delete the old one, then update: the result is the update outcome |
| `PostForm.CreatedPostIsWellFormed` | src/components/post-form/PostForm.jsx:98-113 | A create that navigates stored one new post under the typed slug, with the trimmed title, the uploaded image (stored and public) and the author's id |
| `PostForm.CreateOrder` | src/components/post-form/PostForm.jsx:98-117 | The upload comes first; a document is written only after an upload that produced an id; a failed create leaves the uploaded file behind; it throws iff it does not navigate |
| `PostForm.UpdateTouchesOnlyThePost` | src/components/post-form/PostForm.jsx:120-145 | An update keeps the set of posts, changes no other post, leaves the files alone without a new image, and deletes a stored file only when a new image was chosen and this call's upload succeeded, and then only the old cover |
| `PostForm.UpdatedPostContents` | src/components/post-form/PostForm.jsx:138-148 | A successful update navigates to the same post, now the old post patched with the trimmed title, content, status and (only if one was chosen) the new image |
| `PostForm.FailedUpdateCanLeaveDanglingImage` | src/components/post-form/PostForm.jsx:128-150 | Because the old image is deleted before the update, a failing update leaves the post pointing at a deleted file |
| `Store.NewDocument` | src/appwrite/config.js:61-81 | The created document is keyed by the slug and carries the input's fields, the author id under `userID` |
| `Store.ApplyPatch` | src/appwrite/config.js:90-103 | The supplied fields replace the old ones; the rest, the id and the author stay |
| `Store.FinalQueries` | src/appwrite/config.js:154-160 | The caller's queries are used iff they form a non-empty array, otherwise only active posts are asked for |
| `Store.Listing` | src/appwrite/config.js:154-160 | The full result set of the final queries before paging: exactly the documents satisfying every query, unchanged |
| `Store.Matching` | src/appwrite/config.js:162-167 | The matching documents in the server's order: every one it yields is in the result set, and every matching id the order names is yielded |
| `Store.FirstPage` | src/appwrite/config.js:162-167 | The first page: at most `pageSize` documents, all matching, a prefix of the matches in the server's order, and all of them when they fit |
| `Store.MatchingCount` | src/appwrite/config.js:162-167 | Over an order without repeated ids, the matches are as many as the matching ids the order names |
| `Store.FirstPageListsEveryMatch` | src/appwrite/config.js:162-167 | When the matching documents fit on one page and the order names every id once, each of them is on the first page |
| `Store.DefaultListsActivePosts` | src/appwrite/config.js:151-160 | Without queries of its own, `getPosts` selects exactly the active posts (before paging) |
| `Store.StatusFilterListsThatStatus` | src/appwrite/config.js:154-160 | A status filter selects exactly the posts with that status (before paging) |
| `Store.Service.constructor` | src/appwrite/config.js:33-42 | Only the configuration is recorded; no call is made |
| `Store.Service.CreatePost` | src/appwrite/config.js:61-81 | Creates the document iff the slug is new and the call succeeds; otherwise throws "Failed to create post" and changes nothing; the call is logged |
| `Store.Service.UpdatePost` | src/appwrite/config.js:90-103 | Patches an existing document and returns it; on any failure it returns nothing and changes nothing |
| `Store.Service.DeletePost` | src/appwrite/config.js:111-125 | True iff the document existed and was removed; never throws |
| `Store.Service.GetPost` | src/appwrite/config.js:133-146 | The stored document under that slug, or `false` on any failure |
| `Store.Service.GetPosts` | src/appwrite/config.js:154-173 | The first page of the documents matching the final queries, at most `pageSize` of them, each a stored document satisfying the queries; `false` on failure |
| `Store.Service.UploadFilePublic` | src/appwrite/config.js:186-200 | Stores a new public file under the fresh id and returns it, or `false` changing nothing |
| `Store.Service.UploadFile` | src/appwrite/config.js:208-211 | Behaves as `uploadFilePublic` |
| `Store.Service.MakeFilePublic` | src/appwrite/config.js:220-242 | Tries the options call and then, only if that failed, the positional one; true iff one succeeded, and then the file is public |
| `Store.Service.GetFilePreview` | src/appwrite/config.js:254-265 | The preview URL of the file with the defaults 1200 by 1200, centre, quality 80, unless the SDK throws |
| `Store.Service.GetFileView` | src/appwrite/config.js:274-278 | The URL of the original file, unless the SDK throws |
| `Store.PreviewDefaults` | src/appwrite/config.js:254-265 | Omitting the size and quality gives the same URL as passing 1200, 1200 and 80; a preview URL is never the original's URL |
| `Store.Service.DeleteFile` | src/appwrite/config.js:286-296 | True iff the file existed and was removed (also from the public set); never throws |
| `PostPage.CoverPreview` | src/pages/Post.jsx:46-54 | A preview URL exists iff the post has a truthy cover and the SDK does not throw; it is the default preview of that file |
| `PostPage.CoverView` | src/pages/Post.jsx:56-68 | The same for the URL of the original |
| `PostPage.ErrorsBeforePlaceholder` | src/pages/Post.jsx:131-139 | The placeholder shows iff no more load errors can happen; at most two can |
| `PostPage.FallbackChain` | src/pages/Post.jsx:46-70 | The cover starts with the preview, then the original, then the placeholder, one load error per step; with no preview the placeholder shows at once |
| `PostPage.CoverImage.constructor` | src/pages/Post.jsx:13-14 | Both flags start false, so the preview is shown |
| `PostPage.CoverImage.OnError` | src/pages/Post.jsx:136-139 | A load error falls back to the original when possible, otherwise gives the image up; neither flag is ever cleared and the errors left drop by one |
| `PostPage.CreatorIsAuthor` | src/pages/Post.jsx:21 | A post created in the editor belongs to exactly the user who created it; one created signed out has no author |
| `PostPage.IsAuthor` | src/pages/Post.jsx:21 | `isAuthor`: a post, a signed-in user, and `userID` equal to the user's id; `PostPage.CreatorIsAuthor` states who satisfies it |
| `PostPage.DeleteOrder` | src/pages/Post.jsx:72-87 | Nothing happens without a post and a confirmation; it navigates home iff the document was deleted; the cover file goes only after the document; no other post changes |
| `PostPage.DeleteOutcome` | src/pages/Post.jsx:72-87 | What `handleDelete` leaves: the stores and whether it navigated; `PostPage.DeleteOrder` states its properties |
| `PostPage.Page.constructor` | src/pages/Post.jsx:9-11 | No post, loading, no error |
| `PostPage.Page.Load` | src/pages/Post.jsx:23-44 | A missing or empty slug redirects home at once; otherwise the post is fetched and shown, or the page redirects home when there is none |
| `PostPage.Page.HandleDelete` | src/pages/Post.jsx:72-87 | The stores end as the delete outcome says, navigating home exactly when it deleted |
| `Header.Visible` | src/components/Header/Header.jsx:119-120 | Keeps exactly the active items |
| `Header.MenuEntries` | src/components/Header/Header.jsx:119-148 | Home is always the first entry |
| `Header.NavItems` | src/components/Header/Header.jsx:18-23 | The four items in declared order; `Header.EntriesByAuth` states which are shown for each auth state |
| `Header.IsActive` | src/components/Header/Header.jsx:25-28 | `isActive(slug)`; `Header.ActiveIffSegmentPrefix` characterises it as a whole-segment prefix match |
| `Header.EntriesByAuth` | src/components/Header/Header.jsx:18-23 | Signed in: Home, All Posts, Add Post (as the call to action), Log out; signed out: Home and My Account only |
| `Header.ActiveIffSegmentPrefix` | src/components/Header/Header.jsx:25-28 | A link is active iff its slug is the path or a prefix ending at a "/" boundary |
| `Header.HomeActiveOnlyAtRoot` | src/components/Header/Header.jsx:25-28 | Home is active only on "/" (and on paths starting "//") |
| `Header.Menu.constructor` | src/components/Header/Header.jsx:15 | The mobile menu starts closed |
| `Header.Menu.Toggle` | src/components/Header/Header.jsx:83 | The button flips the menu |
| `Header.Menu.OnRouteChange` | src/components/Header/Header.jsx:31-33 | A new path closes the menu; the same path leaves it as it is |
| `Header.Menu.OnKey` | src/components/Header/Header.jsx:36-42 | Escape closes the menu; other keys change nothing |
| `Header.Menu.OnMobileLinkClick` | src/components/Header/Header.jsx:189-201 | A mobile link navigates to its slug and closes the menu |
| `Header.Menu.LogoutHandler` | src/components/Header/Header.jsx:44-49 | Log out, clear the session in the store, go to "/login", in this order |
| `Credentials.IsEmailIffPattern` | src/components/Login.jsx:106 | The direct email test agrees with the regular expression on every string |
| `Credentials.IsEmail` | src/components/Login.jsx:104-107 | The direct test of the email pattern; `Credentials.IsEmailIffPattern` proves it equal to the regular expression |
| `Credentials.EmailError` | src/components/Login.jsx:102-108 | Empty: "Email is required"; not matching the pattern: "Enter a valid email address"; otherwise it passes |
| `Credentials.PasswordError` | src/components/Login.jsx:127-132 | Empty: required; fewer than 6 characters: the length message; otherwise it passes |
| `Credentials.NameError` | src/components/Signup.jsx:113-118 | Empty: required; one character: the length message; otherwise it passes |
| `Credentials.LoginErrors` | src/components/Login.jsx:102-132 | An email error iff the pattern fails, a password error iff it is shorter than 6, with the rule's message |
| `Credentials.SignupErrors` | src/components/Signup.jsx:113-168 | The same plus a name error iff the name is shorter than 2 |
| `Ui.ErrorText` | src/components/Login.jsx:45-48 | The error's message when it has a non-empty one, the fallback text otherwise |
| `Ui.SessionFlow` | src/components/Login.jsx:35-42 | Only a truthy session leads on: look up the user, store it iff there is one, and always go home last; otherwise only the auth call happens |
| `Login.ReachesServiceIffValid` | src/components/Login.jsx:89 | The form calls the auth service iff the email matches and the password has at least 6 characters |
| `Login.LoginForm.constructor` | src/components/Login.jsx:25-30 | No errors, no banner |
| `Login.LoginForm.Submit` | src/components/Login.jsx:89 | Invalid fields set their errors and nothing else; valid ones run the handler |
| `Login.LoginForm.OnSubmit` | src/components/Login.jsx:32-50 | Clears the banner, signs in, follows the session flow; a rejection shows its message or the fallback text |
| `Signup.ReachesServiceIffValid` | src/components/Signup.jsx:100 | The form calls the auth service iff the name, email and password rules pass, which are the log-in rules plus the name |
| `Signup.SignupForm.constructor` | src/components/Signup.jsx:24-29 | No errors, no banner |
| `Signup.SignupForm.Submit` | src/components/Signup.jsx:100 | Invalid fields set their errors and nothing else; valid ones run the handler |
| `Signup.SignupForm.OnSubmit` | src/components/Signup.jsx:36-50 | Clears the banner, creates the account, follows the session flow; a rejection shows its message or the fallback text |
| `Button.Default` | src/components/Button.jsx:8-21 | A destructuring default replaces only a missing (undefined) prop |
| `Button.Rest` | src/components/Button.jsx:20 | `...props` holds exactly the props the signature does not name, unchanged |
| `Button.PresetFallback` | src/components/Button.jsx:48-49 | A known size or variant gets its own classes; an unknown or missing one gets the "md" or "primary" classes |
| `Button.KeptNonEmpty` | src/components/Button.jsx:55 | `filter(Boolean)` leaves no empty part to join |
| `Button.KeptMembers` | src/components/Button.jsx:55 | A string survives `filter(Boolean)` exactly when some element is truthy and converts to it |
| `Button.ClassParts` | src/components/Button.jsx:46-56 | The class parts, in order: base, size, variant, "w-full" iff `block`, then bgColor, textColor and className each only when truthy |
| `Button.ClassName` | src/components/Button.jsx:46-56 | `cls` starts with the base, the size and the variant classes of the props, separated by single spaces |
| `Button.ClassNameStart` | src/components/Button.jsx:46-56 | The class string always starts with the base, size and variant classes separated by single spaces |
| `Button.Attributes` | src/components/Button.jsx:59-64 | `type` defaults to "button" and cannot be overridden; `disabled` is truthy iff `isLoading` is, unless the caller passes `disabled`, which then wins; likewise `aria-busy`; every other extra prop is passed on |
| `Button.Render` | src/components/Button.jsx:59-66 | The spinner is drawn iff `isLoading` is truthy, whatever else is passed |

Where the code differs from what its own comments suggest, or does something
a reader could easily get wrong, the model follows the code:

- The old cover is deleted before `updatePost` runs
  (src/components/post-form/PostForm.jsx:128-139), so a failed update can
  leave the post pointing at a deleted file;
  `PostForm.FailedUpdateCanLeaveDanglingImage` states this.
- Every title change overwrites the slug, including one the user typed
  (src/components/post-form/PostForm.jsx:47-53); the comment at line 46
  that the user can still edit the slug holds only until the next title
  change, as `PostForm.Editor.OnTitleChange` states.
- The comment on `getPosts` says an empty array lets the caller filter
  without the default (src/appwrite/config.js:151). The code replaces an
  empty array by the active-only filter (src/appwrite/config.js:157-160), as
  `Store.FinalQueries` does.
- `updatePost` does not throw on failure. It returns undefined
  (src/appwrite/config.js:90-103), which the handler turns into "Failed to
  update post.".

## Left out

- The Appwrite SDK itself (client, databases, storage, account) is not part of this model. Only what the service methods do with its answers is modelled, and the SDK's URL format is kept as a structured value (`FileUrl`).
- The auth service (src/appwrite/auth.js) is modelled only through its answers: `login` and `createAccount` either throw or resolve to a session, `getCurrentUser` yields a user or null, and `logout` never fails.
- The Home and All Posts pages are not part of this model. Their point is the ordering of asynchronous loads.
- The `alive` flag of the post page's load effect is left out. It concerns responses that arrive after unmount, which is concurrency.
- The post page's "Failed to load post." banner is left out. `getPost` turns every failure into `false`, so that catch branch is never reached from the service.
- The `typeof getFileView !== "function"` test on the post page is left out. In this service `getFileView` is always a function.
- The confirmation dialog, the rich-text editor, the footer, the logo, the post card and all styling outside Button are presentational markup and are left out.
- The environment configuration is left out. The database, collection and bucket ids are opaque strings, including the misspelt configuration key for the database id.
- Object-URL previews of a chosen image, HTML parsing of the content and date formatting are browser behaviour and are left out.
- react-hook-form's re-validation on touch and the timing of its asynchronous validation are left out. The slug input handler applies the validation result of a changed value after clearing.
- Router and Redux mechanics are left out. Navigations and dispatched actions are recorded as effects.
- Lengths are counted in code points, not UTF-16 units. This affects the `minLength` rules and `{2,}` in the email pattern only for characters outside the Basic Multilingual Plane.
- `toLowerCase` is exact only for code points whose lower-case form contains an ASCII character. Every other code point is kept as it is, which the slug normaliser turns into a hyphen either way.
- `PostForm.SaveNew`: the create handler's own "Failed to create post." branch for a falsy `$id` cannot be reached. A created document's id is the non-blank trimmed slug, so the model navigates with it directly.
- `Store.Service.GetPosts`: the server's sort order and its page size are not visible to the client, so they are parameters (`order`, `pageSize`); the default page size of the backend and the pages after the first are not modelled.
- `Button.PresetFallback`: a `size` or `variant` naming a member of `Object.prototype` (such as "toString") is not modelled; the model treats it as unknown and falls back to md or primary, where the source would look up the inherited member.
- `Button.Attributes`: props whose values are numbers, objects or functions are not modelled. Props are undefined, null, booleans or strings. A `size` or `variant` naming a member of `Object.prototype` is not modelled either.
- The `isSubmitting` flags and the disabled state of the form controls while a submit is in flight are left out, because they concern concurrency.
