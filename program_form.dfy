/**
 * The admin form that creates or edits a charity programme: its validation
 * schema, the gallery field (a comma-separated text box in the form, a list of
 * URLs in the store), and the submit handler that adds a new `programs` record
 * or updates the one being edited.
 */
module ProgramForm {
  import opened Js
  import opened Zod
  import opened Ui
  import opened Firestore

  const Collection := "programs"

  /** The form's values, after Zod has parsed them (unknown keys such as `id`
      are dropped). */
  datatype ProgramValues = ProgramValues(
    nameEn: string, nameAr: string,
    shortDescriptionEn: string, shortDescriptionAr: string,
    fullDescriptionEn: string, fullDescriptionAr: string,
    iconName: string, imageUrl: string,
    galleryImageUrls: Option<string>)

  /** A gallery field as read back from the store: normally an array of URLs,
      but the form copes with any other shape. */
  datatype StoredGallery = GalleryArray(urls: seq<string>) | NotArray

  /** A stored programme as handed to the edit page. */
  datatype StoredProgram = StoredProgram(
    nameEn: string, nameAr: string,
    shortDescriptionEn: string, shortDescriptionAr: string,
    fullDescriptionEn: string, fullDescriptionAr: string,
    iconName: string, imageUrl: string,
    galleryImageUrls: StoredGallery)

  /** `formSchema`: the length minimums and a URL for the featured image; the
      gallery text is optional and unchecked. */
  predicate Valid(v: ProgramValues, z: Checks) {
    && MinLength(v.nameEn, 2) && MinLength(v.nameAr, 2)
    && MinLength(v.shortDescriptionEn, 10) && MinLength(v.shortDescriptionAr, 10)
    && MinLength(v.fullDescriptionEn, 20) && MinLength(v.fullDescriptionAr, 20)
    && MinLength(v.iconName, 2)
    && z.isUrl(v.imageUrl)
  }

  /** The gallery text an existing list is edited as. */
  function GalleryText(g: StoredGallery): string {
    match g
    case GalleryArray(urls) => Join(urls, ", ")
    case NotArray => ""
  }

  /** `defaultValues`: the stored programme with its gallery joined, or all
      fields empty for a new programme. */
  function DefaultValues(initial: Option<StoredProgram>): (v: ProgramValues)
    ensures initial.None? ==> v == ProgramValues("", "", "", "", "", "", "", "", Some(""))
    ensures initial.Some? ==>
      && v.nameEn == initial.value.nameEn && v.nameAr == initial.value.nameAr
      && v.shortDescriptionEn == initial.value.shortDescriptionEn
      && v.shortDescriptionAr == initial.value.shortDescriptionAr
      && v.fullDescriptionEn == initial.value.fullDescriptionEn
      && v.fullDescriptionAr == initial.value.fullDescriptionAr
      && v.iconName == initial.value.iconName && v.imageUrl == initial.value.imageUrl
      && v.galleryImageUrls == Some(GalleryText(initial.value.galleryImageUrls))
  {
    match initial
    case None => ProgramValues("", "", "", "", "", "", "", "", Some(""))
    case Some(p) =>
      ProgramValues(p.nameEn, p.nameAr, p.shortDescriptionEn, p.shortDescriptionAr,
                    p.fullDescriptionEn, p.fullDescriptionAr, p.iconName, p.imageUrl,
                    Some(GalleryText(p.galleryImageUrls)))
  }

  /** The gallery list saved for the gallery text: split on commas, each piece
      trimmed, empty pieces dropped; an empty or absent text saves no URLs. */
  function ParseGallery(text: Option<string>): seq<string> {
    if Truthy(text) then DropEmpty(TrimEach(Split(text.value, ','))) else []
  }

  /** `dataToSubmit`: every form field as entered, with the gallery as a list. */
  function Payload(v: ProgramValues): Record {
    map[
      "nameEn" := Str(v.nameEn), "nameAr" := Str(v.nameAr),
      "shortDescriptionEn" := Str(v.shortDescriptionEn),
      "shortDescriptionAr" := Str(v.shortDescriptionAr),
      "fullDescriptionEn" := Str(v.fullDescriptionEn),
      "fullDescriptionAr" := Str(v.fullDescriptionAr),
      "iconName" := Str(v.iconName), "imageUrl" := Str(v.imageUrl),
      "galleryImageUrls" := StrList(ParseGallery(v.galleryImageUrls))
    ]
  }

  /** Every saved gallery URL is non-empty, free of commas and has no whitespace
      at either end. */
  lemma GalleryClean(text: Option<string>)
    ensures forall i :: 0 <= i < |ParseGallery(text)| ==>
      ParseGallery(text)[i] != "" && Trimmed(ParseGallery(text)[i]) && ',' !in ParseGallery(text)[i]
  {
    if Truthy(text) {
      var pieces := Split(text.value, ',');
      SplitPiecesFree(text.value, ',');
      var trimmed := TrimEach(pieces);
      forall i | 0 <= i < |trimmed| ensures Trimmed(trimmed[i]) && ',' !in trimmed[i] {
        TrimIsTrimmed(pieces[i]);
        TrimNoNewChars(pieces[i], ',');
      }
      forall x | x in DropEmpty(trimmed) ensures Trimmed(x) && ',' !in x {
        var i :| 0 <= i < |trimmed| && trimmed[i] == x;
      }
    }
  }

  /** Editing a programme without touching the gallery saves the same gallery,
      whenever its URLs are non-empty, comma-free and trimmed. */
  lemma {:induction false} GalleryRoundTrip(urls: seq<string>)
    requires forall i :: 0 <= i < |urls| ==> urls[i] != "" && ',' !in urls[i] && Trimmed(urls[i])
    ensures ParseGallery(Some(GalleryText(GalleryArray(urls)))) == urls
  {
    if urls != [] {
      var text := Join(urls, ", ");
      assert "" + text == text;
      SplitTrimJoin(urls, "");
      assert text != "" by {
        if |urls| > 1 {
          assert text == urls[0] + ", " + Join(urls[1..], ", ");
        }
      }
      DropEmptyNone(urls);
    }
  }

  /** A stored value that is not an array is edited as an empty gallery and saved
      as the empty list. */
  lemma NotArraySavesEmpty()
    ensures ParseGallery(Some(GalleryText(NotArray))) == []
  {
  }

  /** Each field of the saved record is the form field of the same name. */
  lemma PayloadReads(v: ProgramValues)
    ensures var r := Payload(v);
      && r["nameEn"] == Str(v.nameEn) && r["nameAr"] == Str(v.nameAr)
      && r["shortDescriptionEn"] == Str(v.shortDescriptionEn)
      && r["shortDescriptionAr"] == Str(v.shortDescriptionAr)
      && r["fullDescriptionEn"] == Str(v.fullDescriptionEn)
      && r["fullDescriptionAr"] == Str(v.fullDescriptionAr)
      && r["iconName"] == Str(v.iconName) && r["imageUrl"] == Str(v.imageUrl)
      && r["galleryImageUrls"] == StrList(ParseGallery(v.galleryImageUrls))
  {
  }

  /** Opening a stored programme and saving it unedited writes back every text
      field as stored and the same gallery, when its URLs are non-empty,
      comma-free and trimmed; a gallery that was not a list is saved as none. */
  lemma EditRoundTrip(p: StoredProgram)
    requires p.galleryImageUrls.GalleryArray? ==>
      forall i :: 0 <= i < |p.galleryImageUrls.urls| ==>
        p.galleryImageUrls.urls[i] != "" && ',' !in p.galleryImageUrls.urls[i] && Trimmed(p.galleryImageUrls.urls[i])
    ensures var r := Payload(DefaultValues(Some(p)));
      && r["nameEn"] == Str(p.nameEn) && r["nameAr"] == Str(p.nameAr)
      && r["shortDescriptionEn"] == Str(p.shortDescriptionEn)
      && r["shortDescriptionAr"] == Str(p.shortDescriptionAr)
      && r["fullDescriptionEn"] == Str(p.fullDescriptionEn)
      && r["fullDescriptionAr"] == Str(p.fullDescriptionAr)
      && r["iconName"] == Str(p.iconName) && r["imageUrl"] == Str(p.imageUrl)
      && r["galleryImageUrls"] == StrList(if p.galleryImageUrls.GalleryArray? then p.galleryImageUrls.urls else [])
  {
    var v := DefaultValues(Some(p));
    PayloadReads(v);
    match p.galleryImageUrls
    case GalleryArray(urls) => GalleryRoundTrip(urls);
    case NotArray => NotArraySavesEmpty();
  }

  /** The empty form a new programme starts from does not pass the schema. */
  lemma NewFormInvalid(z: Checks)
    ensures !Valid(DefaultValues(None), z)
  {
  }

  /** The submit button. Values that fail the schema never reach `onSubmit`.
      `db` is null when the store is unavailable; `autoId` is the id the store
      would give a new record. */
  method Submit(db: Store?, docId: Option<string>, values: ProgramValues, z: Checks, autoId: string)
    returns (effects: seq<Effect>)
    requires db != null && Valid(values, z) && !Truthy(docId) ==> autoId != "" && autoId !in db.Docs(Collection)
    modifies db
    ensures !Valid(values, z) ==>
      effects == [] && (db != null ==> db.collections == old(db.collections) && db.pending == old(db.pending))
    ensures Valid(values, z) && db == null ==> effects == [ShowToast(Toast(true, "Firestore not available", None))]
    ensures Valid(values, z) && db != null && !Truthy(docId) ==>
      && db.collections == WithAdded(old(db.collections), Collection, autoId, Payload(values))
      && effects == [ShowToast(Toast(false, "Success", Some("New program created."))), Push("/admin/programs"), Refresh]
    ensures Valid(values, z) && db != null && Truthy(docId) && docId.value in old(db.Docs(Collection)) ==>
      && db.collections == WithUpdated(old(db.collections), Collection, docId.value, Payload(values))
      && effects == [ShowToast(Toast(false, "Success", Some("Program updated successfully."))), Push("/admin/programs"), Refresh]
    ensures Valid(values, z) && db != null && Truthy(docId) && docId.value !in old(db.Docs(Collection)) ==>
      && db.collections == old(db.collections)
      && effects == [ShowToast(Toast(true, "Error", Some("Failed to save program.")))]
    ensures db != null ==> db.pending == old(db.pending)
  {
    if !Valid(values, z) {
      return [];
    }
    if db == null {
      return [ShowToast(Toast(true, "Firestore not available", None))];
    }
    var data := Payload(values);
    if Truthy(docId) {
      var ok := db.UpdateDoc(Collection, docId.value, data);
      if !ok {
        return [ShowToast(Toast(true, "Error", Some("Failed to save program.")))];
      }
      effects := [ShowToast(Toast(false, "Success", Some("Program updated successfully.")))];
    } else {
      var _ := db.AddDoc(Collection, data, autoId);
      effects := [ShowToast(Toast(false, "Success", Some("New program created.")))];
    }
    effects := effects + [Push("/admin/programs"), Refresh];
  }
}
