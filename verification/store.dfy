/**
 * The post service (`Service` in the appwrite module): a thin layer over the
 * hosted document store and blob store that turns every remote failure into
 * the sentinel its caller expects.
 *
 * The remote stores are modelled as a map from document id (the post's slug)
 * to document and a set of file ids. Whether a remote call fails for a reason
 * the client cannot see (network, permissions, server-side validation) is the
 * parameter `fails`; a call on a missing id, or a create on an existing id,
 * fails whatever `fails` says. Every mutating call is recorded, with its
 * outcome, in the ghost `log`, so callers can state in which order they
 * touched the stores.
 */
module Store {
  import opened Wrappers

  /** A post document as the store returns it; `id` is Appwrite's `$id`. */
  datatype Document = Document(
    id: string,
    title: string,
    content: string,
    featuredImage: Option<string>,
    status: string,
    userID: Option<string>)

  /** The argument object of `createPost`. */
  datatype PostInput = PostInput(
    title: string,
    slug: string,
    content: string,
    featuredImage: Option<string>,
    status: string,
    userId: Option<string>)

  /** The argument object of `updatePost`; `None` is a field left undefined,
      which the store leaves as it was. */
  datatype Patch = Patch(
    title: Option<string>,
    content: Option<string>,
    featuredImage: Option<string>,
    status: Option<string>)

  /** `Query.equal(attribute, value)`. */
  datatype Query = Equal(attribute: string, value: string)

  /** The `queries` argument of `getPosts`: anything that is not an array, or
      an array of queries. */
  datatype QueryArg = NotAnArray | QueryArray(items: seq<Query>)

  /** A URL built by the storage SDK, kept as the request it encodes. */
  datatype FileUrl =
    | PreviewUrl(bucket: string, fileId: string, width: int, height: int, gravity: string, quality: int)
    | ViewUrl(bucket: string, fileId: string)

  /** The two call shapes `makeFilePublic` tries, in this order. */
  datatype PermissionCall = OptionsObject | PositionalArguments

  /** One mutating call on a remote store and whether it succeeded. */
  datatype StoreCall =
    | CreateDocument(id: string, ok: bool)
    | UpdateDocument(id: string, patch: Patch, ok: bool)
    | DeleteDocument(id: string, ok: bool)
    | CreateFile(id: string, ok: bool)
    | UpdateFile(id: string, shape: PermissionCall, ok: bool)
    | DeleteFile(id: string, ok: bool)

  /** Everything the remote stores hold, with the calls made on them so far. */
  datatype Stores = Stores(
    docs: map<string, Document>,
    files: set<string>,
    publicFiles: set<string>,
    log: seq<StoreCall>)

  /** `post.featuredImage` is truthy: present and not the empty string. */
  predicate HasFeaturedImage(d: Document) {
    d.featuredImage.Some? && d.featuredImage.value != ""
  }

  /** The document `createPost` asks the store to create: keyed by the slug,
      with the author's id stored under the field `userID`. */
  function NewDocument(input: PostInput): (d: Document)
    ensures d.id == input.slug && d.userID == input.userId
    ensures d.title == input.title && d.content == input.content
    ensures d.featuredImage == input.featuredImage && d.status == input.status
  {
    Document(input.slug, input.title, input.content, input.featuredImage, input.status, input.userId)
  }

  /** A partial update: the supplied fields replace the old ones, the rest
      and the id stay as they were. */
  function ApplyPatch(d: Document, p: Patch): (r: Document)
    ensures r.id == d.id && r.userID == d.userID
    ensures r.title == p.title.GetOr(d.title) && r.content == p.content.GetOr(d.content)
    ensures r.status == p.status.GetOr(d.status)
    ensures r.featuredImage == if p.featuredImage.Some? then p.featuredImage else d.featuredImage
  {
    d.(title := p.title.GetOr(d.title),
       content := p.content.GetOr(d.content),
       featuredImage := if p.featuredImage.Some? then p.featuredImage else d.featuredImage,
       status := p.status.GetOr(d.status))
  }

  /** The queries `getPosts` sends: the caller's when they form a non-empty
      array, otherwise only active posts. */
  function FinalQueries(queries: QueryArg): (r: seq<Query>)
    ensures queries.QueryArray? ==> (r == queries.items <==> |queries.items| > 0)
    ensures !(queries.QueryArray? && |queries.items| > 0) ==> r == [Equal("status", "active")]
  {
    if queries.QueryArray? && |queries.items| > 0 then queries.items else [Equal("status", "active")]
  }

  /** The value of a document attribute an equality query can name. */
  function Attribute(d: Document, name: string): Option<string> {
    if name == "$id" then Some(d.id)
    else if name == "title" then Some(d.title)
    else if name == "content" then Some(d.content)
    else if name == "featuredImage" then d.featuredImage
    else if name == "status" then Some(d.status)
    else if name == "userID" then d.userID
    else None
  }

  predicate Satisfies(d: Document, queries: seq<Query>) {
    forall q :: q in queries ==> Attribute(d, q.attribute) == Some(q.value)
  }

  /** The documents that satisfy every query: the full result of a listing
      before the server splits it into pages. */
  function Listing(docs: map<string, Document>, queries: seq<Query>): (r: map<string, Document>)
    ensures r.Keys <= docs.Keys
    ensures forall id :: id in r ==> r[id] == docs[id] && Satisfies(docs[id], queries)
    ensures forall id :: id in docs && Satisfies(docs[id], queries) ==> id in r
  {
    map id | id in docs && Satisfies(docs[id], queries) :: docs[id]
  }

  /** The matching documents in the server's order, given as the sequence
      of ids `order` the server sorts the collection by. */
  function Matching(docs: map<string, Document>, queries: seq<Query>, order: seq<string>): (r: seq<Document>)
    ensures |r| <= |order|
    ensures forall d :: d in r ==> d in Listing(docs, queries).Values
    ensures forall id :: id in order && id in Listing(docs, queries) ==> Listing(docs, queries)[id] in r
  {
    if order == [] then []
    else
      var here := if order[0] in docs && Satisfies(docs[order[0]], queries) then [docs[order[0]]] else [];
      here + Matching(docs, queries, order[1..])
  }

  /** What `listDocuments` answers: the first page, at most `pageSize` of
      the matching documents, in the server's order. */
  function FirstPage(docs: map<string, Document>, queries: seq<Query>, order: seq<string>, pageSize: nat): (r: seq<Document>)
    ensures |r| <= pageSize
    ensures forall d :: d in r ==> d in Listing(docs, queries).Values
    ensures |r| <= |Matching(docs, queries, order)| && r == Matching(docs, queries, order)[..|r|]
    ensures |Matching(docs, queries, order)| <= pageSize ==> r == Matching(docs, queries, order)
  {
    var m := Matching(docs, queries, order);
    if |m| <= pageSize then m else m[..pageSize]
  }

  /** Over an order without repeated ids, each matching document is listed
      once. */
  lemma {:induction false} MatchingCount(docs: map<string, Document>, queries: seq<Query>, order: seq<string>)
    requires Distinct(order)
    ensures |Matching(docs, queries, order)| == |InOrder(order, Listing(docs, queries).Keys)|
  {
    if order == [] {
      assert InOrder(order, Listing(docs, queries).Keys) == {};
    } else {
      DistinctTail(order);
      MatchingCount(docs, queries, order[1..]);
      InOrderStep(order, Listing(docs, queries).Keys);
    }
  }

  predicate Distinct(order: seq<string>) {
    forall i, j :: 0 <= i < j < |order| ==> order[i] != order[j]
  }

  /** The ids of `keys` that `order` names. */
  function InOrder(order: seq<string>, keys: set<string>): set<string> {
    set id | id in order && id in keys
  }

  lemma DistinctTail(order: seq<string>)
    requires order != [] && Distinct(order)
    ensures Distinct(order[1..]) && order[0] !in order[1..]
  {
    var tail := order[1..];
    forall i, j | 0 <= i < j < |tail| ensures tail[i] != tail[j] {
      assert tail[i] == order[i + 1] && tail[j] == order[j + 1];
    }
    forall k | 0 <= k < |tail| ensures tail[k] != order[0] {
      assert tail[k] == order[k + 1];
    }
  }

  lemma InOrderStep(order: seq<string>, keys: set<string>)
    requires order != [] && order[0] !in order[1..]
    ensures |InOrder(order, keys)| == |InOrder(order[1..], keys)| + (if order[0] in keys then 1 else 0)
  {
    var rest := InOrder(order[1..], keys);
    assert forall id :: id in order <==> id == order[0] || id in order[1..] by {
      assert order == [order[0]] + order[1..];
    }
    if order[0] in keys {
      assert InOrder(order, keys) == {order[0]} + rest;
    } else {
      assert InOrder(order, keys) == rest;
    }
  }

  /** A collection whose matches fit on one page, listed in an order that
      names every id once, is listed in full. */
  lemma FirstPageListsEveryMatch(docs: map<string, Document>, queries: seq<Query>, order: seq<string>, pageSize: nat)
    requires Distinct(order)
    requires forall id :: id in docs ==> id in order
    requires |Listing(docs, queries)| <= pageSize
    ensures forall id :: id in Listing(docs, queries) ==> Listing(docs, queries)[id] in FirstPage(docs, queries, order, pageSize)
  {
    var l := Listing(docs, queries);
    MatchingCount(docs, queries, order);
    SubsetCard(InOrder(order, l.Keys), l.Keys);
  }

  lemma {:induction false} SubsetCard<T>(a: set<T>, b: set<T>)
    requires a <= b
    ensures |a| <= |b|
  {
    if a != {} {
      var x :| x in a;
      SubsetCard(a - {x}, b - {x});
    }
  }

  /** Without queries of its own, `getPosts` lists exactly the active posts. */
  lemma DefaultListsActivePosts(docs: map<string, Document>, queries: QueryArg)
    requires !(queries.QueryArray? && |queries.items| > 0)
    ensures forall id :: id in Listing(docs, FinalQueries(queries)) <==> id in docs && docs[id].status == "active"
  {
    var qs := FinalQueries(queries);
    forall id | id in docs
      ensures Satisfies(docs[id], qs) <==> docs[id].status == "active"
    {
      assert qs[0] == Equal("status", "active");
    }
  }

  /** A status filter passed by the caller lists exactly the posts with that
      status (for instance the drafts). */
  lemma StatusFilterListsThatStatus(docs: map<string, Document>, status: string)
    ensures forall id ::
      (id in Listing(docs, FinalQueries(QueryArray([Equal("status", status)]))) <==> id in docs && docs[id].status == status)
  {
    var qs := FinalQueries(QueryArray([Equal("status", status)]));
    forall id | id in docs
      ensures Satisfies(docs[id], qs) <==> docs[id].status == status
    {
      assert qs[0] == Equal("status", "" + status);
    }
  }

  class Service {
    /** Configuration read once from the environment: opaque identifiers. */
    const databaseId: string
    const collectionId: string
    const bucketId: string

    /** The remote document store (slug to post) and blob store. */
    var docs: map<string, Document>
    var files: set<string>
    /** Files anyone may read. */
    var publicFiles: set<string>

    /** Every mutating call made through this service, in order. */
    ghost var log: seq<StoreCall>

    /** Each document is stored under its own id; only stored files can be
        public. */
    ghost predicate Valid()
      reads this
    {
      && publicFiles <= files
      && forall id :: id in docs ==> docs[id].id == id
    }

    /** The stores and the call log as one value. */
    ghost function Snapshot(): (s: Stores)
      reads this
      ensures s.docs == docs && s.files == files && s.publicFiles == publicFiles && s.log == log
    {
      Stores(docs, files, publicFiles, log)
    }

    /** No network request: the constructor only records the configuration,
        the stores are whatever the remote service holds. */
    constructor (databaseId: string, collectionId: string, bucketId: string,
                 docs: map<string, Document>, files: set<string>, publicFiles: set<string>)
      requires publicFiles <= files
      requires forall id :: id in docs ==> docs[id].id == id
      ensures Valid()
      ensures this.databaseId == databaseId && this.collectionId == collectionId && this.bucketId == bucketId
      ensures this.docs == docs && this.files == files && this.publicFiles == publicFiles
      ensures log == []
    {
      this.databaseId := databaseId;
      this.collectionId := collectionId;
      this.bucketId := bucketId;
      this.docs := docs;
      this.files := files;
      this.publicFiles := publicFiles;
      log := [];
    }

    /** `createPost`: creates the document keyed by the slug; any store error
        (an existing slug included) is thrown again as "Failed to create post". */
    method CreatePost(input: PostInput, fails: bool) returns (r: Result<Document>)
      requires Valid()
      modifies this
      ensures Valid()
      ensures var ok := !fails && input.slug !in old(docs);
        && log == old(log) + [CreateDocument(input.slug, ok)]
        && (ok ==> r == Ok(NewDocument(input)) && docs == old(docs)[input.slug := NewDocument(input)])
        && (!ok ==> r == Threw("Failed to create post") && docs == old(docs))
      ensures files == old(files) && publicFiles == old(publicFiles)
    {
      var ok := !fails && input.slug !in docs;
      log := log + [CreateDocument(input.slug, ok)];
      if ok {
        var d := NewDocument(input);
        docs := docs[input.slug := d];
        r := Ok(d);
      } else {
        r := Threw("Failed to create post");
      }
    }

    /** `updatePost`: a partial update of document `slug`; on any error it
        returns undefined instead of throwing. */
    method UpdatePost(slug: string, patch: Patch, fails: bool) returns (r: Option<Document>)
      requires Valid()
      modifies this
      ensures Valid()
      ensures var ok := !fails && slug in old(docs);
        && log == old(log) + [UpdateDocument(slug, patch, ok)]
        && (ok ==> r == Some(ApplyPatch(old(docs)[slug], patch)) && docs == old(docs)[slug := r.value])
        && (!ok ==> r == None && docs == old(docs))
      ensures files == old(files) && publicFiles == old(publicFiles)
    {
      var ok := !fails && slug in docs;
      log := log + [UpdateDocument(slug, patch, ok)];
      if ok {
        var d := ApplyPatch(docs[slug], patch);
        docs := docs[slug := d];
        r := Some(d);
      } else {
        r := None;
      }
    }

    /** `deletePost`: true iff the document was deleted; never throws. */
    method DeletePost(slug: string, fails: bool) returns (ok: bool)
      requires Valid()
      modifies this
      ensures Valid()
      ensures ok == (!fails && slug in old(docs))
      ensures log == old(log) + [DeleteDocument(slug, ok)]
      ensures docs == if ok then old(docs) - {slug} else old(docs)
      ensures files == old(files) && publicFiles == old(publicFiles)
    {
      ok := !fails && slug in docs;
      log := log + [DeleteDocument(slug, ok)];
      if ok {
        docs := docs - {slug};
      }
    }

    /** `getPost`: the document, or `false` (here `None`) on any error. */
    method GetPost(slug: string, fails: bool) returns (r: Option<Document>)
      requires Valid()
      ensures r.Some? <==> !fails && slug in docs
      ensures r.Some? ==> r.value == docs[slug] && r.value.id == slug
    {
      if !fails && slug in docs {
        r := Some(docs[slug]);
      } else {
        r := None;
      }
    }

    /** `getPosts`: the first page of the documents matching the final
        queries, or `false` on any error. The server's sort order and page
        size are not visible to the client and are parameters. */
    method GetPosts(queries: QueryArg, order: seq<string>, pageSize: nat, fails: bool) returns (r: Option<seq<Document>>)
      ensures r.Some? <==> !fails
      ensures r.Some? ==> r.value == FirstPage(docs, FinalQueries(queries), order, pageSize)
      ensures r.Some? ==> |r.value| <= pageSize && forall d :: d in r.value ==> d in docs.Values && Satisfies(d, FinalQueries(queries))
    {
      if fails {
        r := None;
      } else {
        r := Some(FirstPage(docs, FinalQueries(queries), order, pageSize));
      }
    }

    /** `uploadFilePublic`: creates a file under the id `ID.unique()` produced
        (`newId`) with public read permission; `false` on any error. */
    method UploadFilePublic(newId: string, fails: bool) returns (r: Option<string>)
      requires Valid()
      modifies this
      ensures Valid()
      ensures var ok := !fails && newId !in old(files);
        && log == old(log) + [CreateFile(newId, ok)]
        && (ok ==> r == Some(newId) && files == old(files) + {newId} && publicFiles == old(publicFiles) + {newId})
        && (!ok ==> r == None && files == old(files) && publicFiles == old(publicFiles))
      ensures docs == old(docs)
    {
      var ok := !fails && newId !in files;
      log := log + [CreateFile(newId, ok)];
      if ok {
        files := files + {newId};
        publicFiles := publicFiles + {newId};
        r := Some(newId);
      } else {
        r := None;
      }
    }

    /** `uploadFile`: the old name, delegating to `uploadFilePublic`. */
    method UploadFile(newId: string, fails: bool) returns (r: Option<string>)
      requires Valid()
      modifies this
      ensures Valid()
      ensures var ok := !fails && newId !in old(files);
        && log == old(log) + [CreateFile(newId, ok)]
        && (ok ==> r == Some(newId) && files == old(files) + {newId} && publicFiles == old(publicFiles) + {newId})
        && (!ok ==> r == None && files == old(files) && publicFiles == old(publicFiles))
      ensures docs == old(docs)
    {
      r := UploadFilePublic(newId, fails);
    }

    /** `makeFilePublic`: tries the options-object call, then the positional
        one; true iff one of them succeeded. */
    method MakeFilePublic(fileId: string, firstFails: bool, secondFails: bool) returns (ok: bool)
      requires Valid()
      modifies this
      ensures Valid()
      ensures ok == (fileId in old(files) && (!firstFails || !secondFails))
      ensures var first := fileId in old(files) && !firstFails;
        log == old(log) + [UpdateFile(fileId, OptionsObject, first)]
          + (if first then [] else [UpdateFile(fileId, PositionalArguments, ok)])
      ensures publicFiles == if ok then old(publicFiles) + {fileId} else old(publicFiles)
      ensures docs == old(docs) && files == old(files)
    {
      var first := fileId in files && !firstFails;
      log := log + [UpdateFile(fileId, OptionsObject, first)];
      if first {
        ok := true;
      } else {
        var second := fileId in files && !secondFails;
        log := log + [UpdateFile(fileId, PositionalArguments, second)];
        ok := second;
      }
      if ok {
        publicFiles := publicFiles + {fileId};
      }
    }

    /** `getFilePreview(fileId, w = 1200, h = 1200, quality = 80)`; `None`
        stands for an omitted argument and `sdkThrows` for the SDK's URL
        builder throwing, which is not caught here. */
    function GetFilePreview(fileId: string, w: Option<int>, h: Option<int>, quality: Option<int>,
                            sdkThrows: bool): (r: Result<FileUrl>)
      ensures r.Ok? <==> !sdkThrows
      ensures r.Ok? ==> r.value == PreviewUrl(bucketId, fileId, w.GetOr(1200), h.GetOr(1200), "center", quality.GetOr(80))
    {
      if sdkThrows then Threw("preview URL could not be built")
      else Ok(PreviewUrl(bucketId, fileId, w.GetOr(1200), h.GetOr(1200), "center", quality.GetOr(80)))
    }

    /** `getFileView(fileId)`: the URL of the original file. */
    function GetFileView(fileId: string, sdkThrows: bool): (r: Result<FileUrl>)
      ensures r.Ok? <==> !sdkThrows
      ensures r.Ok? ==> r.value == ViewUrl(bucketId, fileId)
    {
      if sdkThrows then Threw("view URL could not be built") else Ok(ViewUrl(bucketId, fileId))
    }

    /** `deleteFile`: true iff the file was deleted; never throws. */
    method DeleteFile(fileId: string, fails: bool) returns (ok: bool)
      requires Valid()
      modifies this
      ensures Valid()
      ensures ok == (!fails && fileId in old(files))
      ensures log == old(log) + [StoreCall.DeleteFile(fileId, ok)]
      ensures files == if ok then old(files) - {fileId} else old(files)
      ensures publicFiles == if ok then old(publicFiles) - {fileId} else old(publicFiles)
      ensures docs == old(docs)
    {
      ok := !fails && fileId in files;
      log := log + [StoreCall.DeleteFile(fileId, ok)];
      if ok {
        files := files - {fileId};
        publicFiles := publicFiles - {fileId};
      }
    }
  }

  /** Omitting the size and quality of a preview is the same as asking for
      1200 by 1200 at quality 80, and a preview differs from the original's
      URL. */
  lemma PreviewDefaults(svc: Service, fileId: string, sdkThrows: bool)
    ensures svc.GetFilePreview(fileId, None, None, None, sdkThrows) ==
            svc.GetFilePreview(fileId, Some(1200), Some(1200), Some(80), sdkThrows)
    ensures !sdkThrows ==> svc.GetFilePreview(fileId, None, None, None, sdkThrows).value != svc.GetFileView(fileId, sdkThrows).value
  {
  }
}
