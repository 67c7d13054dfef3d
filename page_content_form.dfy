/**
 * The admin editor for one page's bilingual content document. The document
 * holds two objects, `contentEn` and `contentAr`, mapping field names to text.
 * The form edits each as a list of `{ key, value }` entries, turns the lists
 * back into objects on submit, and overwrites both objects in the document
 * `page_content/<docId>`. Each entry is labelled by its key with a space put
 * before every capital letter.
 */
module PageContentForm {
  import opened Js
  import opened Ui
  import opened Firestore

  const Collection := "page_content"

  /** The document as handed to the form; either object may be missing. */
  datatype InitialData = InitialData(id: string, contentEn: Option<seq<Entry>>, contentAr: Option<seq<Entry>>)

  /** The form's two entry lists. */
  datatype PageContentValues = PageContentValues(contentEn: seq<Entry>, contentAr: seq<Entry>)

  // ---------------------------------------------------------------------------
  // Object <-> entry list
  // ---------------------------------------------------------------------------

  /** `Object.entries(obj || {})`, each pair as `{ key, value }`. */
  function EntriesOf(obj: Option<seq<Entry>>): seq<Entry> {
    if obj.Some? then obj.value else []
  }

  function DefaultValues(initial: InitialData): PageContentValues {
    PageContentValues(EntriesOf(initial.contentEn), EntriesOf(initial.contentAr))
  }

  /** `reduce((acc, { key, value }) => ({ ...acc, [key]: value }), acc)`. */
  function Fold(acc: seq<Entry>, es: seq<Entry>): seq<Entry>
    decreases es
  {
    if es == [] then acc else Fold(Put(acc, es[0].key, es[0].value), es[1..])
  }

  /** The object an entry list is turned back into on submit. */
  function FromEntries(es: seq<Entry>): seq<Entry> {
    Fold([], es)
  }

  /** The value of the last entry with key `k`, if any. */
  function LastValue(es: seq<Entry>, k: string): Option<string> {
    if es == [] then None
    else
      var later := LastValue(es[1..], k);
      if later.Some? then later
      else if es[0].key == k then Some(es[0].value)
      else None
  }

  /** A missing content object gives an empty entry list. */
  lemma MissingObjectNoEntries(id: string, ar: Option<seq<Entry>>, en: Option<seq<Entry>>)
    ensures DefaultValues(InitialData(id, None, ar)).contentEn == []
    ensures DefaultValues(InitialData(id, en, None)).contentAr == []
  {
  }

  lemma {:induction false} FoldAppends(acc: seq<Entry>, es: seq<Entry>)
    requires DistinctKeys(acc + es)
    ensures Fold(acc, es) == acc + es
    decreases es
  {
    if es != [] {
      var e := es[0];
      assert e == (acc + es)[|acc|];
      assert e.key !in Keys(acc) by {
        forall i | 0 <= i < |acc| ensures acc[i].key != e.key {
          assert acc[i] == (acc + es)[i];
        }
      }
      PutAppends(acc, e.key, e.value);
      assert acc + [e] + es[1..] == acc + es;
      FoldAppends(acc + [e], es[1..]);
    }
  }

  /** Object to entries and back is the identity: the entries of an object have
      distinct keys, so no entry overwrites another and the order is kept. */
  lemma ObjectRoundTrip(obj: seq<Entry>)
    requires DistinctKeys(obj)
    ensures FromEntries(EntriesOf(Some(obj))) == obj
  {
    assert [] + obj == obj;
    FoldAppends([], obj);
  }

  lemma {:induction false} FoldLookup(acc: seq<Entry>, es: seq<Entry>, k: string)
    ensures Lookup(Fold(acc, es), k) ==
      (if LastValue(es, k).Some? then LastValue(es, k) else Lookup(acc, k))
    decreases es
  {
    if es != [] {
      FoldLookup(Put(acc, es[0].key, es[0].value), es[1..], k);
      PutLookup(acc, es[0].key, es[0].value, k);
    }
  }

  lemma {:induction false} FoldDistinct(acc: seq<Entry>, es: seq<Entry>)
    requires DistinctKeys(acc)
    ensures DistinctKeys(Fold(acc, es))
    decreases es
  {
    if es != [] {
      PutDistinct(acc, es[0].key, es[0].value);
      FoldDistinct(Put(acc, es[0].key, es[0].value), es[1..]);
    }
  }

  /** Entries to object: every key of the list appears once, and a key listed
      more than once takes the value of its last entry. */
  lemma EntriesLastWins(es: seq<Entry>, k: string)
    ensures DistinctKeys(FromEntries(es))
    ensures Lookup(FromEntries(es), k) == LastValue(es, k)
  {
    FoldDistinct([], es);
    FoldLookup([], es, k);
  }

  // ---------------------------------------------------------------------------
  // Labels
  // ---------------------------------------------------------------------------

  /** `[A-Z]`. */
  predicate IsUpper(c: char) {
    'A' <= c <= 'Z'
  }

  function CountUpper(s: string): nat {
    if s == [] then 0 else (if IsUpper(s[0]) then 1 else 0) + CountUpper(s[1..])
  }

  /** `key.replace(/([A-Z])/g, ' $1')`. */
  function Label(key: string): string {
    if key == [] then []
    else (if IsUpper(key[0]) then [' ', key[0]] else [key[0]]) + Label(key[1..])
  }

  /** Removes the space in front of each capital letter. */
  function Unlabel(s: string): string {
    if s == [] then []
    else if |s| >= 2 && s[0] == ' ' && IsUpper(s[1]) then [s[1]] + Unlabel(s[2..])
    else [s[0]] + Unlabel(s[1..])
  }

  lemma {:induction false} LabelStartsLower(key: string)
    ensures Label(key) == [] || !IsUpper(Label(key)[0])
  {
  }

  /** A label is its key with one space put in front of each capital letter:
      it is longer by the number of capitals, and taking those spaces out gives
      the key back. */
  lemma {:induction false} LabelInsertsSpaces(key: string)
    ensures |Label(key)| == |key| + CountUpper(key)
    ensures Unlabel(Label(key)) == key
  {
    if key != [] {
      LabelInsertsSpaces(key[1..]);
      var rest := Label(key[1..]);
      LabelStartsLower(key[1..]);
      if IsUpper(key[0]) {
        assert ([' ', key[0]] + rest)[2..] == rest;
      } else {
        assert ([key[0]] + rest)[1..] == rest;
      }
    }
  }

  // ---------------------------------------------------------------------------
  // Submit
  // ---------------------------------------------------------------------------

  /** The fields written to the document. */
  function UpdateData(values: PageContentValues): Record {
    map[
      "contentEn" := StrMap(FromEntries(values.contentEn)),
      "contentAr" := StrMap(FromEntries(values.contentAr)),
      "lastUpdated" := ServerTimestamp
    ]
  }

  method Submit(db: Store?, docId: string, values: PageContentValues) returns (effects: seq<Effect>)
    modifies db
    ensures db == null ==> effects == [ShowToast(Toast(true, "Firestore not available", None))]
    ensures db != null && docId != "" && docId in old(db.Docs(Collection)) ==>
      && db.collections == WithUpdated(old(db.collections), Collection, docId, UpdateData(values))
      && effects == [ShowToast(Toast(false, "Success", Some("Page content updated."))), Push("/admin/pages"), Refresh]
    ensures db != null && (docId == "" || docId !in old(db.Docs(Collection))) ==>
      && db.collections == old(db.collections)
      && effects == [ShowToast(Toast(true, "Error", Some("Failed to save page content.")))]
    ensures db != null ==> db.pending == old(db.pending)
  {
    if db == null {
      return [ShowToast(Toast(true, "Firestore not available", None))];
    }
    var ok := db.UpdateDoc(Collection, docId, UpdateData(values));
    if ok {
      effects := [ShowToast(Toast(false, "Success", Some("Page content updated."))), Push("/admin/pages"), Refresh];
    } else {
      effects := [ShowToast(Toast(true, "Error", Some("Failed to save page content.")))];
    }
  }

  /** A save replaces both content objects and the update time of the one
      document, keeps its other fields, and leaves every other document alone. */
  lemma SubmitOverwrites(cols: Collections, docId: string, values: PageContentValues, c: string, id: string)
    requires docId in DocsOf(cols, Collection)
    ensures var before := DocsOf(cols, Collection)[docId];
      var after := DocsOf(WithUpdated(cols, Collection, docId, UpdateData(values)), Collection)[docId];
      && after["contentEn"] == StrMap(FromEntries(values.contentEn))
      && after["contentAr"] == StrMap(FromEntries(values.contentAr))
      && after["lastUpdated"] == ServerTimestamp
      && after.Keys == before.Keys + {"contentEn", "contentAr", "lastUpdated"}
      && (forall f :: f in before && f != "contentEn" && f != "contentAr" && f != "lastUpdated" ==> after[f] == before[f])
    ensures c != Collection || id != docId ==>
      && (id in DocsOf(WithUpdated(cols, Collection, docId, UpdateData(values)), c) <==> id in DocsOf(cols, c))
      && (id in DocsOf(cols, c) ==> DocsOf(WithUpdated(cols, Collection, docId, UpdateData(values)), c)[id] == DocsOf(cols, c)[id])
  {
    if c != Collection || id != docId {
      UpdateTouchesOneDocument(cols, Collection, docId, UpdateData(values), c, id);
    }
  }
}
