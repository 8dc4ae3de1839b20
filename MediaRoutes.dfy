/** The media routes (backend/routes/media.js): the upload file filter,
    kind inference, tag splitting, the list query with its pagination, and
    the get, update and soft-delete handlers over a store of documents. */
module MediaRoutes {
  import opened Common
  import opened Text
  import opened Seqs
  import opened Store
  import opened MediaSchema

  /** multer's size limit: 50 MiB. */
  const MaxFileSize := 50 * 1024 * 1024

  /** The alternatives of the filter's regular expression /jpeg|jpg|png|gif|mp4|mov|avi|webm/. */
  const AllowedTypes: seq<string> := ["jpeg", "jpg", "png", "gif", "mp4", "mov", "avi", "webm"]

  /** The regular expression's `test`: some alternative occurs somewhere in `s`. */
  predicate MatchesAllowed(s: string) {
    exists i :: 0 <= i < |AllowedTypes| && Contains(s, AllowedTypes[i])
  }

  /** The file part of a multipart upload. */
  datatype UploadedFile = UploadedFile(originalName: string, mimeType: string, size: nat)

  /** The `fileFilter`: the lower-cased original name and the (not
      lower-cased) MIME type must both match. */
  predicate AcceptsFile(f: UploadedFile) {
    MatchesAllowed(Lower(f.originalName)) && MatchesAllowed(f.mimeType)
  }

  /** Upper-case extensions pass, because the name is lower-cased first. */
  lemma AcceptsPngPhoto()
    ensures AcceptsFile(UploadedFile("Beach.PNG", "image/png", 2048))
  {
    var name := Lower("Beach.PNG");
    assert name == "beach.png";
    assert OccursAt(name, "png", 6);
    ContainsIff(name, "png");
    assert OccursAt("image/png", "png", 6);
    ContainsIff("image/png", "png");
    assert AllowedTypes[2] == "png";
  }

  /** Every alternative starts with a lower-case letter, so a MIME type with
      no lower-case letter (such as "IMAGE/GIF") is refused whatever the name:
      unlike the name, the MIME type is not lower-cased before the test. */
  lemma {:induction false} RejectsMimeWithoutLowerCase(f: UploadedFile)
    requires forall i :: 0 <= i < |f.mimeType| ==> !('a' <= f.mimeType[i] <= 'z')
    ensures !AcceptsFile(f)
  {
    var s := f.mimeType;
    forall i | 0 <= i < |AllowedTypes| ensures !Contains(s, AllowedTypes[i]) {
      var t := AllowedTypes[i];
      assert 'a' <= t[0] <= 'z';
      forall k ensures !OccursAt(s, t, k) {
        if 0 <= k <= |s| - |t| {
          assert s[k..k + |t|][0] == s[k];
        }
      }
      ContainsIff(s, t);
    }
  }

  /** `mimetype.startsWith('video/')` decides the kind. */
  function KindOfMime(mimeType: string): (k: Kind)
    ensures k == Video <==> StartsWith(mimeType, "video/")
  {
    if StartsWith(mimeType, "video/") then Video else Photo
  }

  lemma KindExamples()
    ensures KindOfMime("video/mp4") == Video
    ensures KindOfMime("image/png") == Photo
  {
    assert "image/png"[..6][0] != "video/"[0];
  }

  /** The host folder a kind is stored under. */
  function Folder(k: Kind): string {
    "titu-luxury/" + KindName(k) + "s"
  }

  /** The host's resource type for a kind, on upload and on destroy. */
  function ResourceType(k: Kind): string {
    if k == Video then "video" else "image"
  }

  lemma FolderNames()
    ensures Folder(Photo) == "titu-luxury/photos" && Folder(Video) == "titu-luxury/videos"
    ensures ResourceType(Photo) == "image" && ResourceType(Video) == "video"
  {
  }

  /** `tags ? tags.split(',').map(tag => tag.trim()) : []`; an absent tags
      field is the empty string here. */
  function SplitTags(tags: string): (r: seq<string>)
    ensures tags == "" ==> r == []
    ensures tags != "" ==> |r| == Count(tags, ',') + 1
    ensures tags != "" ==> forall i :: 0 <= i < |r| ==> r[i] == Trim(Split(tags, ',')[i])
    ensures forall i :: 0 <= i < |r| ==> IsTrimmed(r[i]) && ',' !in r[i]
  {
    if tags == "" then []
    else
      var parts := Split(tags, ',');
      var r := TrimAll(parts);
      assert forall i :: 0 <= i < |r| ==> ',' !in r[i] by {
        forall i | 0 <= i < |r| ensures ',' !in r[i] {
          assert r[i] == parts[i][LeadingSpace(parts[i])..LeadingSpace(parts[i]) + |r[i]|];
        }
      }
      r
  }

  /** Trimmed tags free of commas come back unchanged from their
      comma-joined text. */
  lemma {:induction false} TagsRoundTrip(ts: seq<string>)
    requires |ts| > 0 && Join(ts, ',') != ""
    requires forall i :: 0 <= i < |ts| ==> IsTrimmed(ts[i]) && ',' !in ts[i]
    ensures SplitTags(Join(ts, ',')) == ts
  {
    SplitJoin(ts, ',');
    forall i | 0 <= i < |ts| ensures SplitTags(Join(ts, ','))[i] == ts[i] {
      TrimOfTrimmed(ts[i]);
    }
  }

  /** What the media host answers to an upload. */
  datatype HostUpload =
    | HostFailed
    | HostStored(secureUrl: string, thumbnailUrl: Option<string>, publicId: string,
                 width: Option<int>, height: Option<int>)

  /** The `metadata` form field: absent or empty, a JSON text, or text `JSON.parse` refuses. */
  datatype MetadataField = NoMetadata | MetadataJson(metadata: Metadata) | MalformedJson

  function ParsedMetadata(f: MetadataField): Metadata
    requires !f.MalformedJson?
  {
    if f.MetadataJson? then f.metadata else EmptyMetadata
  }

  /** The text fields of an upload; None is an absent field, "" an absent `tags`. */
  datatype UploadForm = UploadForm(title: Option<string>, description: Option<string>,
                                   category: Option<string>, tags: string, metadata: MetadataField)

  datatype MediaError =
    | NoFileUploaded     // 400
    | FileRejected       // the file filter's error, answered 500 by the default error handler
    | FileTooLarge       // multer's size-limit error, answered 500 by the default error handler
    | UploadFailed       // 500: the host refused the file
    | MetadataUnparseable // no answer: the parse error escapes the upload callback
    | SaveFailed         // 500: validation or the database write failed
    | NotFound           // 404
    | RequestFailed      // 500: the database or the host failed

  /** The HTTP status each error is answered with; None when no answer is sent. */
  function Status(e: MediaError): (s: Option<int>)
    ensures s == Some(400) <==> e == NoFileUploaded
    ensures s == Some(404) <==> e == NotFound
    ensures s.None? <==> e == MetadataUnparseable
    ensures !(e.NoFileUploaded? || e.NotFound? || e.MetadataUnparseable?) ==> s == Some(500)
  {
    match e
    case NoFileUploaded => Some(400)
    case NotFound => Some(404)
    case MetadataUnparseable => None
    case _ => Some(500)
  }

  /** The document `new Media({...})` is given after a successful host upload. */
  function UploadDraft(f: UploadedFile, form: UploadForm, stored: HostUpload): (d: MediaDraft)
    requires stored.HostStored? && !form.metadata.MalformedJson?
    ensures d.title == form.title && d.description == form.description && d.category == form.category
    ensures d.kind == Some(KindName(KindOfMime(f.mimeType)))
    ensures d.url == Some(stored.secureUrl) && d.cloudinaryId == Some(stored.publicId)
    ensures d.size == Some(f.size) && d.dimensions == Dimensions(stored.width, stored.height)
    ensures d.tags == SplitTags(form.tags) && d.metadata == ParsedMetadata(form.metadata)
    ensures d.thumbnail == if KindOfMime(f.mimeType) == Video then stored.thumbnailUrl else Some(stored.secureUrl)
    ensures d.isFeatured.None? && d.isActive.None? && d.uploadDate.None?
  {
    var kind := KindOfMime(f.mimeType);
    MediaDraft(form.title, form.description, Some(KindName(kind)), form.category,
               Some(stored.secureUrl),
               if kind == Video then stored.thumbnailUrl else Some(stored.secureUrl),
               Some(stored.publicId), Some(f.size), Dimensions(stored.width, stored.height),
               SplitTags(form.tags), None, None, None, ParsedMetadata(form.metadata))
  }

  /** The document an upload request yields before it is written, or the
      error that stops it, checked in the handler's order: the file's
      presence, the file filter, the size limit, the host's answer, the
      metadata text, then the schema's validators. */
  function UploadOutcome(file: Option<UploadedFile>, form: UploadForm, host: HostUpload, now: int)
    : (r: Result<Media, MediaError>)
    ensures file.None? ==> r == Err(NoFileUploaded)
    ensures file.Some? && !AcceptsFile(file.value) ==> r == Err(FileRejected)
    ensures file.Some? && AcceptsFile(file.value) && file.value.size > MaxFileSize ==> r == Err(FileTooLarge)
    ensures file.Some? && AcceptsFile(file.value) && file.value.size <= MaxFileSize ==>
      && (host.HostFailed? ==> r == Err(UploadFailed))
      && (host.HostStored? && form.metadata.MalformedJson? ==> r == Err(MetadataUnparseable))
    ensures r.Ok? ==> ValidMedia(r.value)
    ensures r.Ok? <==>
      && file.Some? && AcceptsFile(file.value) && file.value.size <= MaxFileSize
      && host.HostStored? && !form.metadata.MalformedJson?
      && Validate(UploadDraft(file.value, form, host), now).Ok?
    ensures r.Ok? ==> r.value == Validate(UploadDraft(file.value, form, host), now).value
    ensures r.Err? && r.error == SaveFailed <==>
      && file.Some? && AcceptsFile(file.value) && file.value.size <= MaxFileSize
      && host.HostStored? && !form.metadata.MalformedJson?
      && Validate(UploadDraft(file.value, form, host), now).Err?
  {
    if file.None? then Err(NoFileUploaded)
    else if !AcceptsFile(file.value) then Err(FileRejected)
    else if file.value.size > MaxFileSize then Err(FileTooLarge)
    else if host.HostFailed? then Err(UploadFailed)
    else if form.metadata.MalformedJson? then Err(MetadataUnparseable)
    else
      var media := Validate(UploadDraft(file.value, form, host), now);
      if media.Err? then Err(SaveFailed) else Ok(media.value)
  }

  /** An uploaded document carries the form's trimmed title and description,
      its category and parsed metadata, and the host's url, id and
      dimensions; it is active, not featured, dated at the upload and of the
      kind its MIME type names; a video keeps the host's thumbnail, which must
      be present, and a photo is its own thumbnail. */
  lemma UploadedDocument(file: Option<UploadedFile>, form: UploadForm, host: HostUpload, now: int)
    requires UploadOutcome(file, form, host, now).Ok?
    ensures var m := UploadOutcome(file, form, host, now).value;
      && m.isActive && !m.isFeatured && m.uploadDate == now
      && form.title.Some? && m.title == Trim(form.title.value) && m.description == TrimOpt(form.description)
      && form.category == Some(m.category) && m.metadata == ParsedMetadata(form.metadata)
      && m.dimensions == Dimensions(host.width, host.height)
      && m.url == host.secureUrl && m.cloudinaryId == host.publicId && m.size == file.value.size
      && (StartsWith(file.value.mimeType, "video/") ==> m.kind == Video && Present(m.thumbnail) && m.thumbnail == host.thumbnailUrl)
      && (!StartsWith(file.value.mimeType, "video/") ==> m.kind == Photo && m.thumbnail == Some(m.url))
      && m.tags == SplitTags(form.tags)
  {
    var d := UploadDraft(file.value, form, host);
    assert KindOf(d.kind.value) == Some(KindOfMime(file.value.mimeType));
    assert TrimAll(d.tags) == d.tags by {
      forall i | 0 <= i < |d.tags| ensures TrimAll(d.tags)[i] == d.tags[i] {
        TrimOfTrimmed(d.tags[i]);
      }
    }
  }

  /** The list query's parameters; "" is an absent string parameter. */
  datatype ListParams = ListParams(page: Option<int>, limit: Option<int>, kind: string,
                                   category: string, featured: string, search: string)

  /** The query object the list handler builds. */
  datatype MediaQuery = MediaQuery(isActive: bool, kind: Option<string>, category: Option<string>,
                                   featuredOnly: bool, search: Option<string>)
  {
    predicate Matches(m: Media) {
      && m.isActive == isActive
      && (kind.Some? ==> KindName(m.kind) == kind.value)
      && (category.Some? ==> m.category == category.value)
      && (featuredOnly ==> m.isFeatured)
      && (search.Some? ==> SearchHit(m, search.value))
    }
  }

  /** Case-insensitive occurrence of `needle` in `text`. */
  predicate ContainsIgnoringCase(text: string, needle: string) {
    Contains(Lower(text), Lower(needle))
  }

  /** The search alternatives: the title, the description, or one of the tags. */
  predicate SearchHit(m: Media, needle: string) {
    || ContainsIgnoringCase(m.title, needle)
    || (m.description.Some? && ContainsIgnoringCase(m.description.value, needle))
    || (exists i :: 0 <= i < |m.tags| && ContainsIgnoringCase(m.tags[i], needle))
  }

  /** The records a list request asks for: active ones that pass every given filter. */
  predicate Selected(p: ListParams, m: Media) {
    && m.isActive
    && (p.kind != "" ==> KindName(m.kind) == p.kind)
    && (p.category != "" ==> m.category == p.category)
    && (p.featured == "true" ==> m.isFeatured)
    && (p.search != "" ==> SearchHit(m, p.search))
  }

  /** Builds the query object field by field, as the handler does. */
  method BuildQuery(p: ListParams) returns (q: MediaQuery)
    ensures forall m :: q.Matches(m) <==> Selected(p, m)
  {
    q := MediaQuery(true, None, None, false, None);
    if p.kind != "" {
      q := q.(kind := Some(p.kind));
    }
    if p.category != "" {
      q := q.(category := Some(p.category));
    }
    if p.featured == "true" {
      q := q.(featuredOnly := true);
    }
    if p.search != "" {
      q := q.(search := Some(p.search));
    }
  }

  /** The sort key of `{ uploadDate: -1 }`. */
  function NewestFirst(m: Media): int {
    -m.uploadDate
  }

  /** Every selected record, newest upload first. */
  function Ranked(docs: seq<Media>, p: ListParams): seq<Media> {
    SortBy(Filter(docs, m => Selected(p, m)), NewestFirst)
  }

  /** `(page - 1) * limit`. */
  function SkipOf(page: int, limit: int): int {
    (page - 1) * limit
  }

  lemma SkipOfPage(page: int, limit: int)
    requires page >= 1 && limit >= 0
    ensures SkipOf(page, limit) >= 0
  {
    var n := page - 1;
    assert n * limit >= 0;
  }

  /** `Math.ceil(total / limit)`; None where JavaScript gives Infinity or NaN (a zero limit). */
  function TotalPages(total: nat, limit: int): (r: Option<int>)
    ensures limit == 0 <==> r.None?
    ensures limit > 0 ==> r == Some(CeilDiv(total, limit))
  {
    if limit == 0 then None
    else if limit > 0 then Some(CeilDiv(total, limit))
    else Some(-(total / -limit))
  }

  /** What the store's cursor returns after skipping `skip`: at most `limit`
      records, where a zero limit means no limit and a negative one its magnitude. */
  function Window(s: seq<Media>, skip: nat, limit: int): (r: seq<Media>)
    ensures limit != 0 ==> r == Slice(s, skip, if limit > 0 then limit else -limit)
    ensures limit == 0 ==> r == Slice(s, skip, |s|)
  {
    Slice(s, skip, if limit > 0 then limit else if limit < 0 then -limit else |s|)
  }

  datatype Page = Page(media: seq<Media>, totalPages: Option<int>, currentPage: int, total: nat)

  /** The response of `GET /media` over the documents `docs`, in their natural order. */
  function ListResponse(docs: seq<Media>, p: ListParams): Result<Page, MediaError> {
    var page := p.page.GetOr(1);
    var limit := p.limit.GetOr(12);
    var ranked := Ranked(docs, p);
    var skip := SkipOf(page, limit);
    if skip < 0 then Err(RequestFailed)
    else Ok(Page(Window(ranked, skip, limit), TotalPages(|ranked|, limit), page, |ranked|))
  }

  /** The ranking holds exactly the selected documents. */
  lemma RankedSelected(docs: seq<Media>, p: ListParams)
    ensures forall m :: m in Ranked(docs, p) ==> Selected(p, m) && m in docs
    ensures forall m :: m in docs && Selected(p, m) ==> m in Ranked(docs, p)
    ensures |Ranked(docs, p)| == |Filter(docs, m => Selected(p, m))|
  {
    var filtered := Filter(docs, m => Selected(p, m));
    var ranked := Ranked(docs, p);
    assert multiset(ranked) == multiset(filtered);
    forall m | m in ranked ensures Selected(p, m) && m in docs {
      assert m in multiset(ranked);
      assert m in filtered;
    }
    forall m | m in docs && Selected(p, m) ensures m in ranked {
      var i :| 0 <= i < |docs| && docs[i] == m;
      assert m in filtered;
      assert m in multiset(filtered);
    }
  }

  /** The records of a listed page, the window of the ranking it starts at. */
  lemma ListedWindow(docs: seq<Media>, p: ListParams)
    requires ListResponse(docs, p).Ok?
    ensures var skip := SkipOf(p.page.GetOr(1), p.limit.GetOr(12));
      && skip >= 0
      && ListResponse(docs, p).value.media == Window(Ranked(docs, p), skip, p.limit.GetOr(12))
      && ListResponse(docs, p).value.total == |Ranked(docs, p)|
  {
  }

  /** Every listed record is active, passes every filter and is stored;
      inactive records never appear. */
  lemma ListedAreSelected(docs: seq<Media>, p: ListParams)
    requires ListResponse(docs, p).Ok?
    ensures forall m :: m in ListResponse(docs, p).value.media ==> m.isActive && Selected(p, m) && m in docs
  {
    var ranked := Ranked(docs, p);
    var limit := p.limit.GetOr(12);
    var skip := SkipOf(p.page.GetOr(1), limit);
    ListedWindow(docs, p);
    RankedSelected(docs, p);
    SliceOfSorted(ranked, skip, if limit > 0 then limit else if limit < 0 then -limit else |ranked|, NewestFirst);
  }

  /** A listed page is newest first and holds at most `limit` records. */
  lemma ListedNewestFirst(docs: seq<Media>, p: ListParams)
    requires ListResponse(docs, p).Ok?
    ensures var page := ListResponse(docs, p).value.media;
      && (forall i, j :: 0 <= i < j < |page| ==> page[i].uploadDate >= page[j].uploadDate)
      && (p.limit.GetOr(12) > 0 ==> |page| <= p.limit.GetOr(12))
  {
    var ranked := Ranked(docs, p);
    var limit := p.limit.GetOr(12);
    var skip := SkipOf(p.page.GetOr(1), limit);
    ListedWindow(docs, p);
    var page := Window(ranked, skip, limit);
    SliceOfSorted(ranked, skip, if limit > 0 then limit else if limit < 0 then -limit else |ranked|, NewestFirst);
    forall i, j | 0 <= i < j < |page| ensures page[i].uploadDate >= page[j].uploadDate {
      assert NewestFirst(page[i]) <= NewestFirst(page[j]);
    }
  }

  /** The request for page `page` at `limit` records per page. */
  function AtPage(p: ListParams, page: int, limit: int): ListParams {
    p.(page := Some(page), limit := Some(limit))
  }

  /** Paging does not change which records are ranked, nor their order. */
  lemma RankedIgnoresPaging(docs: seq<Media>, p: ListParams, page: int, limit: int)
    ensures Ranked(docs, AtPage(p, page, limit)) == Ranked(docs, p)
  {
    FilterSame(docs, m => Selected(AtPage(p, page, limit), m), m => Selected(p, m));
  }

  /** With a positive limit, every page from 1 on is answered with its slice of the ranking. */
  lemma PageAnswered(docs: seq<Media>, p: ListParams, k: int, limit: nat)
    requires limit > 0 && k >= 1
    ensures ListResponse(docs, AtPage(p, k, limit)).Ok?
    ensures ListResponse(docs, AtPage(p, k, limit)).value.media == Slice(Ranked(docs, p), (k - 1) * limit, limit)
  {
    RankedIgnoresPaging(docs, p, k, limit);
    var q := AtPage(p, k, limit);
    assert q.page.GetOr(1) == k && q.limit.GetOr(12) == limit;
    SkipOfPage(k, limit);
    var ranked := Ranked(docs, p);
    assert ListResponse(docs, q)
      == Ok(Page(Window(ranked, SkipOf(k, limit), limit), TotalPages(|ranked|, limit), k, |ranked|));
  }

  /** Reading pages 1 .. totalPages at a positive limit gives every selected
      record exactly once, newest first. */
  lemma PagesListEverything(docs: seq<Media>, p: ListParams, limit: nat)
    requires limit > 0
    ensures ListResponse(docs, AtPage(p, 1, limit)).Ok?
    ensures var first := ListResponse(docs, AtPage(p, 1, limit)).value;
      && first.totalPages.Some?
      && PagesUpTo(Ranked(docs, p), limit, first.totalPages.value) == Ranked(docs, p)
  {
    var ranked := Ranked(docs, p);
    RankedIgnoresPaging(docs, p, 1, limit);
    assert ListResponse(docs, AtPage(p, 1, limit)).value.totalPages == Some(CeilDiv(|ranked|, limit));
    PagesCoverAll(ranked, limit);
  }

  /** The fields of `PUT /media/:id`; None is an absent field, "" absent tags. */
  datatype MediaPatch = MediaPatch(title: Option<string>, description: Option<string>,
                                   category: Option<string>, tags: string,
                                   isFeatured: Option<bool>, metadata: MetadataField)

  /** The update the handler sends: absent title, description, category and
      isFeatured are left alone, while tags and metadata are always replaced.
      Setters run on the update; validators do not. */
  function ApplyPatch(m: Media, u: MediaPatch): (r: Media)
    requires !u.metadata.MalformedJson?
    ensures r.tags == SplitTags(u.tags) && r.metadata == ParsedMetadata(u.metadata)
    ensures r.title == if u.title.Some? then Trim(u.title.value) else m.title
    ensures r.description == if u.description.Some? then TrimOpt(u.description) else m.description
    ensures r.category == u.category.GetOr(m.category)
    ensures r.isFeatured == u.isFeatured.GetOr(m.isFeatured)
    ensures && r.kind == m.kind && r.url == m.url && r.thumbnail == m.thumbnail
            && r.cloudinaryId == m.cloudinaryId && r.size == m.size && r.dimensions == m.dimensions
            && r.isActive == m.isActive && r.uploadDate == m.uploadDate
  {
    // The tags' trim setter leaves the already trimmed pieces unchanged.
    m.(title := if u.title.Some? then Trim(u.title.value) else m.title,
       description := if u.description.Some? then TrimOpt(u.description) else m.description,
       category := u.category.GetOr(m.category),
       tags := SplitTags(u.tags),
       isFeatured := u.isFeatured.GetOr(m.isFeatured),
       metadata := ParsedMetadata(u.metadata))
  }

  /** An update that names neither tags nor metadata clears both. */
  lemma PatchClearsTagsAndMetadata(m: Media, u: MediaPatch)
    requires u.tags == "" && u.metadata == NoMetadata
    ensures ApplyPatch(m, u).tags == [] && ApplyPatch(m, u).metadata == EmptyMetadata
  {
  }

  /** Applying the same update twice is applying it once. */
  lemma PatchIdempotent(m: Media, u: MediaPatch)
    requires !u.metadata.MalformedJson?
    ensures ApplyPatch(ApplyPatch(m, u), u) == ApplyPatch(m, u)
  {
  }

  /** The media collection: documents by id, their natural order, and the next fresh id. */
  class MediaStore {
    var records: map<Id, Media>
    var order: seq<Id>
    var nextId: Id

    ghost predicate Valid()
      reads this
    {
      Consistent(records, order, nextId)
    }

    function Documents(): seq<Media>
      reads this
      requires Valid()
    {
      InOrder(order, records)
    }

    constructor ()
      ensures Valid() && records == map[] && order == []
    {
      records, order, nextId := map[], [], 0;
    }

    /** `POST /media/upload`: `file` is None when no file was attached,
        `host` is the host's answer, `now` the time of creation and `dbOk`
        whether the database write succeeds. */
    method Upload(file: Option<UploadedFile>, form: UploadForm, host: HostUpload, now: int, dbOk: bool)
      returns (r: Result<Id, MediaError>)
      requires Valid()
      modifies this
      ensures Valid()
      ensures r.Ok? <==> UploadOutcome(file, form, host, now).Ok? && dbOk
      ensures UploadOutcome(file, form, host, now).Err? ==> r == Err(UploadOutcome(file, form, host, now).error)
      ensures UploadOutcome(file, form, host, now).Ok? && !dbOk ==> r == Err(SaveFailed)
      ensures r.Err? ==> records == old(records) && order == old(order)
      ensures r.Ok? ==> && r.value !in old(records)
                        && records == old(records)[r.value := UploadOutcome(file, form, host, now).value]
                        && order == old(order) + [r.value]
    {
      var media := UploadOutcome(file, form, host, now);
      if media.Err? {
        return Err(media.error);
      }
      if !dbOk {
        return Err(SaveFailed);
      }
      var id := Insert(media.value);
      r := Ok(id);
    }

    /** Stores `m` under a fresh id at the end of the natural order. */
    method Insert(m: Media) returns (id: Id)
      requires Valid()
      modifies this
      ensures Valid()
      ensures id !in old(records) && records == old(records)[id := m] && order == old(order) + [id]
    {
      id := nextId;
      AddFresh(records, order, nextId, m);
      records := records[id := m];
      order := order + [id];
      nextId := nextId + 1;
    }

    /** `GET /media`. */
    method List(p: ListParams, dbOk: bool) returns (r: Result<Page, MediaError>)
      requires Valid()
      ensures !dbOk ==> r == Err(RequestFailed)
      ensures dbOk ==> r == ListResponse(Documents(), p)
    {
      if !dbOk {
        return Err(RequestFailed);
      }
      var q := BuildQuery(p);
      var page := p.page.GetOr(1);
      var limit := p.limit.GetOr(12);
      var matching := Filter(Documents(), m => q.Matches(m));
      assert matching == Filter(Documents(), m => Selected(p, m)) by {
        FilterSame(Documents(), m => q.Matches(m), m => Selected(p, m));
      }
      var ranked := SortBy(matching, NewestFirst);
      var skip := SkipOf(page, limit);
      if skip < 0 {
        return Err(RequestFailed);
      }
      r := Ok(Page(Window(ranked, skip, limit), TotalPages(|ranked|, limit), page, |ranked|));
    }

    /** `GET /media/:id`: found whether active or not. */
    method Get(id: Id, dbOk: bool) returns (r: Result<Media, MediaError>)
      ensures !dbOk ==> r == Err(RequestFailed)
      ensures dbOk && id !in records ==> r == Err(NotFound)
      ensures dbOk && id in records ==> r == Ok(records[id])
    {
      if !dbOk {
        return Err(RequestFailed);
      }
      if id !in records {
        return Err(NotFound);
      }
      r := Ok(records[id]);
    }

    /** `PUT /media/:id`. The metadata text is parsed before the lookup. */
    method Update(id: Id, u: MediaPatch, dbOk: bool) returns (r: Result<Media, MediaError>)
      requires Valid()
      modifies this
      ensures Valid() && order == old(order)
      ensures (u.metadata.MalformedJson? || !dbOk) ==> r == Err(RequestFailed)
      ensures !u.metadata.MalformedJson? && dbOk && id !in old(records) ==> r == Err(NotFound)
      ensures r.Err? ==> records == old(records)
      ensures r.Ok? <==> !u.metadata.MalformedJson? && dbOk && id in old(records)
      ensures r.Ok? ==> && r.value == ApplyPatch(old(records)[id], u)
                        && records == old(records)[id := r.value]
    {
      if u.metadata.MalformedJson? || !dbOk {
        return Err(RequestFailed);
      }
      if id !in records {
        return Err(NotFound);
      }
      var updated := ApplyPatch(records[id], u);
      records := records[id := updated];
      r := Ok(updated);
    }

    /** `DELETE /media/:id`: the host copy is destroyed first, then the
        document is marked inactive; it is never removed. `dbOk` is the
        lookup, `destroyOk` the host's destroy call, `saveOk` the final save. */
    method Delete(id: Id, dbOk: bool, destroyOk: bool, saveOk: bool) returns (r: Result<(), MediaError>)
      requires Valid()
      modifies this
      ensures Valid() && order == old(order)
      ensures dbOk && id !in old(records) ==> r == Err(NotFound)
      ensures !dbOk || (id in old(records) && (!destroyOk || !saveOk)) ==> r == Err(RequestFailed)
      ensures r.Ok? <==> dbOk && id in old(records) && destroyOk && saveOk
      ensures r.Err? ==> records == old(records)
      ensures r.Ok? ==> records == old(records)[id := old(records)[id].(isActive := false)]
    {
      if !dbOk {
        return Err(RequestFailed);
      }
      if id !in records {
        return Err(NotFound);
      }
      if !destroyOk || !saveOk {
        return Err(RequestFailed);
      }
      records := records[id := records[id].(isActive := false)];
      r := Ok(());
    }
  }

  /** A soft-deleted record stays retrievable but is never listed again. */
  lemma DeletedNeverListed(docs: seq<Media>, p: ListParams, m: Media)
    requires !m.isActive && ListResponse(docs, p).Ok?
    ensures m !in ListResponse(docs, p).value.media
  {
    ListedAreSelected(docs, p);
  }
}
