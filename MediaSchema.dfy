/** The media document schema (backend/models/Media.js): which fields are
    required, the enumerations, the length limits that apply after the
    `trim` setter, the defaults, and the rule that a video needs a thumbnail. */
module MediaSchema {
  import opened Common
  import opened Text

  datatype Kind = Photo | Video

  /** The `type` string stored for a kind. */
  function KindName(k: Kind): string {
    match k
    case Photo => "photo"
    case Video => "video"
  }

  const Categories: seq<string> :=
    ["Portrait", "Lifestyle", "Fashion", "Style", "Moments", "Beauty", "Elegance", "Grace", "Living", "Events"]

  const MaxTitleLength := 100
  const MaxDescriptionLength := 500

  datatype Dimensions = Dimensions(width: Option<int>, height: Option<int>)

  /** The optional free-text metadata of a photo or video. */
  datatype Metadata = Metadata(camera: Option<string>, location: Option<string>,
                               photographer: Option<string>, event: Option<string>)

  /** `{}`: metadata with no field set. */
  const EmptyMetadata := Metadata(None, None, None, None)

  /** The values handed to `new Media({...})`; None is an undefined value. */
  datatype MediaDraft = MediaDraft(
    title: Option<string>,
    description: Option<string>,
    kind: Option<string>,
    category: Option<string>,
    url: Option<string>,
    thumbnail: Option<string>,
    cloudinaryId: Option<string>,
    size: Option<int>,
    dimensions: Dimensions,
    tags: seq<string>,
    isFeatured: Option<bool>,
    isActive: Option<bool>,
    uploadDate: Option<int>,
    metadata: Metadata)

  /** A media document as stored. `uploadDate` is an instant in seconds. */
  datatype Media = Media(
    title: string,
    description: Option<string>,
    kind: Kind,
    category: string,
    url: string,
    thumbnail: Option<string>,
    cloudinaryId: string,
    size: int,
    dimensions: Dimensions,
    tags: seq<string>,
    isFeatured: bool,
    isActive: bool,
    uploadDate: int,
    metadata: Metadata)

  /** The validator that rejects a draft. */
  datatype Violation =
    | TitleRequired | TitleTooLong | DescriptionTooLong
    | KindRequired | KindNotInEnum | CategoryRequired | CategoryNotInEnum
    | UrlRequired | ThumbnailRequired | CloudinaryIdRequired | SizeRequired

  /** A string `required` accepts: present and not empty. */
  predicate Present(s: Option<string>) {
    s.Some? && s.value != ""
  }

  function TrimAll(tags: seq<string>): (r: seq<string>)
    ensures |r| == |tags|
    ensures forall i :: 0 <= i < |tags| ==> r[i] == Trim(tags[i])
  {
    seq(|tags|, i requires 0 <= i < |tags| => Trim(tags[i]))
  }

  function KindOf(name: string): Option<Kind> {
    if name == "photo" then Some(Photo) else if name == "video" then Some(Video) else None
  }

  /** The validator that fails first on each path of `d`, after the setters
      ran. A path's `required` validator runs before its others, and a path
      reports only its first failure. Lengths are UTF-16 lengths, as
      `maxlength` compares `.length`. */
  function Violations(d: MediaDraft): set<Violation> {
    TextViolations(TrimOpt(d.title), TrimOpt(d.description))
    + (if !Present(d.kind) then {KindRequired}
       else if KindOf(d.kind.value).None? then {KindNotInEnum} else {})
    + (if !Present(d.category) then {CategoryRequired}
       else if d.category.value !in Categories then {CategoryNotInEnum} else {})
    + (if !Present(d.url) then {UrlRequired} else {})
    + (if d.kind == Some("video") && !Present(d.thumbnail) then {ThumbnailRequired} else {})
    + (if !Present(d.cloudinaryId) then {CloudinaryIdRequired} else {})
    + (if d.size.None? then {SizeRequired} else {})
  }

  /** The failures of the two text paths, `title` and `description`, after
      trimming; no other path's validator is among them. */
  function TextViolations(title: Option<string>, description: Option<string>): (r: set<Violation>)
    ensures r <= {TitleRequired, TitleTooLong, DescriptionTooLong}
    ensures TitleRequired in r <==> !Present(title)
  {
    (if !Present(title) then {TitleRequired}
     else if Utf16Length(title.value) > MaxTitleLength then {TitleTooLong} else {})
    + (if description.Some? && Utf16Length(description.value) > MaxDescriptionLength then {DescriptionTooLong} else {})
  }

  /** The draft passes every validator: the conditions Violations checks, negated. */
  predicate Acceptable(d: MediaDraft) {
    var title := TrimOpt(d.title);
    var description := TrimOpt(d.description);
    && Present(title) && Utf16Length(title.value) <= MaxTitleLength
    && (description.Some? ==> Utf16Length(description.value) <= MaxDescriptionLength)
    && Present(d.kind) && KindOf(d.kind.value).Some?
    && Present(d.category) && d.category.value in Categories
    && Present(d.url)
    && (d.kind == Some("video") ==> Present(d.thumbnail))
    && Present(d.cloudinaryId)
    && d.size.Some?
  }

  /** No validator fails exactly when the draft is acceptable. */
  lemma NoViolationsIff(d: MediaDraft)
    ensures Violations(d) == {} <==> Acceptable(d)
  {
    var title := TrimOpt(d.title);
    var description := TrimOpt(d.description);
    var v := Violations(d);
    if !Present(title) { assert TitleRequired in v; }
    else if Utf16Length(title.value) > MaxTitleLength { assert TitleTooLong in v; }
    else if description.Some? && Utf16Length(description.value) > MaxDescriptionLength { assert DescriptionTooLong in v; }
    else if !Present(d.kind) { assert KindRequired in v; }
    else if KindOf(d.kind.value).None? { assert KindNotInEnum in v; }
    else if !Present(d.category) { assert CategoryRequired in v; }
    else if d.category.value !in Categories { assert CategoryNotInEnum in v; }
    else if !Present(d.url) { assert UrlRequired in v; }
    else if d.kind == Some("video") && !Present(d.thumbnail) { assert ThumbnailRequired in v; }
    else if !Present(d.cloudinaryId) { assert CloudinaryIdRequired in v; }
    else if d.size.None? { assert SizeRequired in v; }
    else { assert v == {}; }
  }

  /** What every document that passed validation satisfies. */
  predicate ValidMedia(m: Media) {
    && m.title != "" && IsTrimmed(m.title) && Utf16Length(m.title) <= MaxTitleLength
    && (m.description.Some? ==> IsTrimmed(m.description.value) && Utf16Length(m.description.value) <= MaxDescriptionLength)
    && m.category in Categories
    && m.url != ""
    && (m.kind == Video ==> Present(m.thumbnail))
    && m.cloudinaryId != ""
    && (forall i :: 0 <= i < |m.tags| ==> IsTrimmed(m.tags[i]))
  }

  /** Construct and validate a document the way `save()` does: setters,
      then defaults (`isFeatured` false, `isActive` true, `uploadDate` the
      time of creation `now`), then every validator. */
  function Validate(d: MediaDraft, now: int): (r: Result<Media, set<Violation>>)
    ensures r.Err? <==> Violations(d) != {}
    ensures r.Err? ==> r.error == Violations(d)
    ensures r.Ok? ==> ValidMedia(r.value)
    ensures r.Ok? ==> && r.value.title == Trim(d.title.value)
                      && r.value.description == TrimOpt(d.description)
                      && KindName(r.value.kind) == d.kind.value
                      && r.value.category == d.category.value
                      && r.value.url == d.url.value
                      && r.value.thumbnail == d.thumbnail
                      && r.value.cloudinaryId == d.cloudinaryId.value
                      && r.value.size == d.size.value
                      && r.value.dimensions == d.dimensions
                      && r.value.tags == TrimAll(d.tags)
                      && r.value.metadata == d.metadata
                      && r.value.isFeatured == d.isFeatured.GetOr(false)
                      && r.value.isActive == d.isActive.GetOr(true)
                      && r.value.uploadDate == d.uploadDate.GetOr(now)
  {
    NoViolationsIff(d);
    if !Acceptable(d) then Err(Violations(d))
    else
      var tags := TrimAll(d.tags);
      assert forall i :: 0 <= i < |tags| ==> IsTrimmed(tags[i]);
      var kind := KindOf(d.kind.value).value;
      Ok(Media(Trim(d.title.value), TrimOpt(d.description), kind, d.category.value,
               d.url.value, d.thumbnail, d.cloudinaryId.value, d.size.value, d.dimensions,
               tags, d.isFeatured.GetOr(false), d.isActive.GetOr(true),
               d.uploadDate.GetOr(now), d.metadata))
  }

  /** The draft that describes a stored document field for field. */
  function DraftOf(m: Media): MediaDraft {
    MediaDraft(Some(m.title), m.description, Some(KindName(m.kind)), Some(m.category),
               Some(m.url), m.thumbnail, Some(m.cloudinaryId), Some(m.size), m.dimensions,
               m.tags, Some(m.isFeatured), Some(m.isActive), Some(m.uploadDate), m.metadata)
  }

  /** The draft of a valid document passes every validator. */
  lemma DraftOfAcceptable(m: Media)
    requires ValidMedia(m)
    ensures Acceptable(DraftOf(m))
  {
    TrimOfTrimmed(m.title);
    if m.description.Some? {
      TrimOfTrimmed(m.description.value);
    }
    assert KindOf(KindName(m.kind)) == Some(m.kind);
  }

  /** Validation accepts every valid document unchanged: the validators and
      setters admit exactly what ValidMedia describes. */
  lemma ValidateValid(m: Media, now: int)
    requires ValidMedia(m)
    ensures Validate(DraftOf(m), now) == Ok(m)
  {
    var d := DraftOf(m);
    DraftOfAcceptable(m);
    NoViolationsIff(d);
    TrimOfTrimmed(m.title);
    assert TrimOpt(m.description) == m.description by {
      if m.description.Some? {
        TrimOfTrimmed(m.description.value);
      }
    }
    assert TrimAll(m.tags) == m.tags by {
      forall i | 0 <= i < |m.tags| ensures TrimAll(m.tags)[i] == m.tags[i] {
        TrimOfTrimmed(m.tags[i]);
      }
    }
    assert KindOf(KindName(m.kind)) == Some(m.kind);
  }

  /** A thumbnail is required exactly for videos: dropping it keeps a valid
      photo valid and makes every video invalid. */
  lemma ThumbnailRequiredIffVideo(m: Media)
    requires ValidMedia(m)
    ensures ValidMedia(m.(thumbnail := None)) <==> m.kind == Photo
  {
  }

  /** A title of 51 emoji is 102 UTF-16 units long, so it is refused as
      too long though it has only 51 characters. */
  lemma EmojiTitleTooLong(d: MediaDraft)
    requires d.title == Some(seq(51, i => '\U{1F600}'))
    ensures Validate(d, 0).Err? && TitleTooLong in Validate(d, 0).error
  {
    var t := d.title.value;
    Utf16LengthAstral(t);
    TrimOfTrimmed(t);
  }

  /** An empty category is reported as missing only: its `enum` validator
      does not run once `required` has failed. */
  lemma BlankCategoryReportedOnce(d: MediaDraft)
    requires d.category == Some("")
    ensures Validate(d, 0).Err?
    ensures CategoryRequired in Validate(d, 0).error && CategoryNotInEnum !in Validate(d, 0).error
  {
    var v := Violations(d);
    var rest := TextViolations(TrimOpt(d.title), TrimOpt(d.description));
    assert CategoryNotInEnum !in rest;
    assert CategoryRequired in v && CategoryNotInEnum !in v;
    var r := Validate(d, 0);
    assert r.Err? && r.error == v;
  }

  /** A title of white space only is refused, however short. */
  lemma BlankTitleRefused(d: MediaDraft)
    requires d.title.Some? && AllSpace(d.title.value)
    ensures Validate(d, 0).Err? && TitleRequired in Validate(d, 0).error
  {
    TrimEmptyIff(d.title.value);
  }
}
