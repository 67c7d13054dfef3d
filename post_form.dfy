/**
 * The admin form that creates or edits a news post: its validation schema, the
 * tags field (a comma-separated text box in the form, a list in the store), and
 * the submit handler, which stamps `publishDate` only on a new post.
 */
module PostForm {
  import opened Js
  import opened Zod
  import opened Ui
  import opened Firestore

  const Collection := "posts"

  /** The form's values after Zod has parsed them. */
  datatype PostValues = PostValues(
    titleEn: string, titleAr: string,
    summaryEn: string, summaryAr: string,
    contentEn: string, contentAr: string,
    imageUrl: string,
    tags: Option<string>)

  /** A tags field as read back from the store. */
  datatype StoredTags = TagArray(tags: seq<string>) | NotArray

  datatype StoredPost = StoredPost(
    titleEn: string, titleAr: string,
    summaryEn: string, summaryAr: string,
    contentEn: string, contentAr: string,
    imageUrl: string,
    tags: StoredTags)

  /** `formSchema`: the length minimums and a URL for the featured image. */
  predicate Valid(v: PostValues, z: Checks) {
    && MinLength(v.titleEn, 5) && MinLength(v.titleAr, 5)
    && MinLength(v.summaryEn, 10) && MinLength(v.summaryAr, 10)
    && MinLength(v.contentEn, 20) && MinLength(v.contentAr, 20)
    && z.isUrl(v.imageUrl)
  }

  function TagsText(t: StoredTags): string {
    match t
    case TagArray(tags) => Join(tags, ", ")
    case NotArray => ""
  }

  /** `defaultValues`: the stored post with its tags joined, or all fields empty. */
  function DefaultValues(initial: Option<StoredPost>): (v: PostValues)
    ensures initial.None? ==> v == PostValues("", "", "", "", "", "", "", Some(""))
    ensures initial.Some? ==>
      && v.titleEn == initial.value.titleEn && v.titleAr == initial.value.titleAr
      && v.summaryEn == initial.value.summaryEn && v.summaryAr == initial.value.summaryAr
      && v.contentEn == initial.value.contentEn && v.contentAr == initial.value.contentAr
      && v.imageUrl == initial.value.imageUrl
      && v.tags == Some(TagsText(initial.value.tags))
  {
    match initial
    case None => PostValues("", "", "", "", "", "", "", Some(""))
    case Some(p) =>
      PostValues(p.titleEn, p.titleAr, p.summaryEn, p.summaryAr,
                 p.contentEn, p.contentAr, p.imageUrl, Some(TagsText(p.tags)))
  }

  /** The tag list saved for the tags text: split on commas and each piece
      trimmed; unlike the programme gallery, empty pieces are kept. */
  function ParseTags(text: Option<string>): seq<string> {
    if Truthy(text) then TrimEach(Split(text.value, ',')) else []
  }

  /** `dataToSubmit`: every form field as entered, with the tags as a list. */
  function Payload(v: PostValues): Record {
    map[
      "titleEn" := Str(v.titleEn), "titleAr" := Str(v.titleAr),
      "summaryEn" := Str(v.summaryEn), "summaryAr" := Str(v.summaryAr),
      "contentEn" := Str(v.contentEn), "contentAr" := Str(v.contentAr),
      "imageUrl" := Str(v.imageUrl),
      "tags" := StrList(ParseTags(v.tags))
    ]
  }

  /** What a new post is added as: the payload plus the server's publish time. */
  function CreatePayload(v: PostValues): Record {
    Payload(v)["publishDate" := ServerTimestamp]
  }

  /** A non-empty tags text gives one tag per comma plus one, none of them with
      whitespace at either end or a comma inside. */
  lemma TagCount(text: string)
    requires text != ""
    ensures |ParseTags(Some(text))| == Count(text, ',') + 1
    ensures forall i :: 0 <= i < |ParseTags(Some(text))| ==>
      Trimmed(ParseTags(Some(text))[i]) && ',' !in ParseTags(Some(text))[i]
  {
    SplitLength(text, ',');
    SplitPiecesFree(text, ',');
    var pieces := Split(text, ',');
    forall i | 0 <= i < |pieces| ensures Trimmed(Trim(pieces[i])) && ',' !in Trim(pieces[i]) {
      TrimIsTrimmed(pieces[i]);
      TrimNoNewChars(pieces[i], ',');
    }
  }

  /** Empty pieces survive: `"a,,b"` saves three tags. */
  lemma EmptyTagsKept()
    ensures ParseTags(Some("a,,b")) == ["a", "", "b"]
  {
    assert Split("a,,b", ',') == ["a", "", "b"] by {
      SplitAt("a", ',', ",b");
      assert "a,,b" == "a" + [','] + ",b";
      SplitAt("", ',', "b");
      assert ",b" == "" + [','] + "b";
      SplitNoSep("b", ',');
    }
    assert Trim("a") == "a" && Trim("") == "" && Trim("b") == "b";
  }

  /** Editing a post without touching its tags saves the same tags, when no tag
      contains a comma or has whitespace at either end; the single empty tag is
      the exception, since it is edited as an empty text and saved as no tags. */
  lemma {:induction false} TagsRoundTrip(tags: seq<string>)
    requires forall i :: 0 <= i < |tags| ==> ',' !in tags[i] && Trimmed(tags[i])
    ensures tags != [""] ==> ParseTags(Some(TagsText(TagArray(tags)))) == tags
    ensures ParseTags(Some(TagsText(TagArray([""])))) == []
  {
    if tags != [] && tags != [""] {
      var text := Join(tags, ", ");
      assert "" + text == text;
      SplitTrimJoin(tags, "");
      assert text != "" by {
        if |tags| > 1 {
          assert text == tags[0] + ", " + Join(tags[1..], ", ");
        }
      }
    }
  }

  /** Each field of the saved record is the form field of the same name. */
  lemma PayloadReads(v: PostValues)
    ensures var r := Payload(v);
      && r["titleEn"] == Str(v.titleEn) && r["titleAr"] == Str(v.titleAr)
      && r["summaryEn"] == Str(v.summaryEn) && r["summaryAr"] == Str(v.summaryAr)
      && r["contentEn"] == Str(v.contentEn) && r["contentAr"] == Str(v.contentAr)
      && r["imageUrl"] == Str(v.imageUrl)
      && r["tags"] == StrList(ParseTags(v.tags))
  {
  }

  /** Opening a stored post and saving it unedited writes back every text field
      as stored and the same tags, when no tag holds a comma or edge whitespace;
      a lone empty tag, or tags that were not a list, are saved as none. */
  lemma EditRoundTrip(p: StoredPost)
    requires p.tags.TagArray? ==>
      forall i :: 0 <= i < |p.tags.tags| ==> ',' !in p.tags.tags[i] && Trimmed(p.tags.tags[i])
    ensures var r := Payload(DefaultValues(Some(p)));
      && r["titleEn"] == Str(p.titleEn) && r["titleAr"] == Str(p.titleAr)
      && r["summaryEn"] == Str(p.summaryEn) && r["summaryAr"] == Str(p.summaryAr)
      && r["contentEn"] == Str(p.contentEn) && r["contentAr"] == Str(p.contentAr)
      && r["imageUrl"] == Str(p.imageUrl)
      && r["tags"] == StrList(if p.tags.TagArray? && p.tags.tags != [""] then p.tags.tags else [])
  {
    var v := DefaultValues(Some(p));
    PayloadReads(v);
    match p.tags
    case TagArray(tags) => TagsRoundTrip(tags);
    case NotArray =>
  }

  /** The update never carries `publishDate`, so editing keeps a post's original
      publish time; only a new post receives one. */
  lemma PublishDateOnlyOnCreate(v: PostValues, stored: Record)
    ensures "publishDate" !in Payload(v)
    ensures "publishDate" in stored ==> (stored + Payload(v))["publishDate"] == stored["publishDate"]
    ensures CreatePayload(v)["publishDate"] == ServerTimestamp
  {
  }

  /** The empty form a new post starts from does not pass the schema. */
  lemma NewFormInvalid(z: Checks)
    ensures !Valid(DefaultValues(None), z)
  {
  }

  /** The submit button. Values that fail the schema never reach `onSubmit`.
      `db` is null when the store is unavailable; `autoId` is the id the store
      would give a new record. */
  method Submit(db: Store?, docId: Option<string>, values: PostValues, z: Checks, autoId: string)
    returns (effects: seq<Effect>)
    requires db != null && Valid(values, z) && !Truthy(docId) ==> autoId != "" && autoId !in db.Docs(Collection)
    modifies db
    ensures !Valid(values, z) ==>
      effects == [] && (db != null ==> db.collections == old(db.collections) && db.pending == old(db.pending))
    ensures Valid(values, z) && db == null ==> effects == [ShowToast(Toast(true, "Firestore not available", None))]
    ensures Valid(values, z) && db != null && !Truthy(docId) ==>
      && db.collections == WithAdded(old(db.collections), Collection, autoId, CreatePayload(values))
      && effects == [ShowToast(Toast(false, "Success", Some("New post created."))), Push("/admin/news"), Refresh]
    ensures Valid(values, z) && db != null && Truthy(docId) && docId.value in old(db.Docs(Collection)) ==>
      && db.collections == WithUpdated(old(db.collections), Collection, docId.value, Payload(values))
      && effects == [ShowToast(Toast(false, "Success", Some("Post updated successfully."))), Push("/admin/news"), Refresh]
    ensures Valid(values, z) && db != null && Truthy(docId) && docId.value !in old(db.Docs(Collection)) ==>
      && db.collections == old(db.collections)
      && effects == [ShowToast(Toast(true, "Error", Some("Failed to save post.")))]
    ensures db != null ==> db.pending == old(db.pending)
  {
    if !Valid(values, z) {
      return [];
    }
    if db == null {
      return [ShowToast(Toast(true, "Firestore not available", None))];
    }
    if Truthy(docId) {
      var ok := db.UpdateDoc(Collection, docId.value, Payload(values));
      if !ok {
        return [ShowToast(Toast(true, "Error", Some("Failed to save post.")))];
      }
      effects := [ShowToast(Toast(false, "Success", Some("Post updated successfully.")))];
    } else {
      var _ := db.AddDoc(Collection, CreatePayload(values), autoId);
      effects := [ShowToast(Toast(false, "Success", Some("New post created.")))];
    }
    effects := effects + [Push("/admin/news"), Refresh];
  }
}
