/**
 * The admin form that creates or edits a board member's profile: its
 * validation schema, the conversion of the two term dates to `YYYY-MM-DD`
 * strings (the date part of `Date.prototype.toISOString`), and the submit
 * handler that adds a `board_members` record or updates the one being edited.
 */
module BoardMemberForm {
  import opened Js
  import opened Zod
  import opened Ui
  import opened Firestore

  const Collection := "board_members"

  // ---------------------------------------------------------------------------
  // Dates
  // ---------------------------------------------------------------------------

  /** A point in time in UTC, to the millisecond. */
  datatype Instant = Instant(year: int, month: nat, day: nat,
                             hour: nat, minute: nat, second: nat, millis: nat)

  predicate LeapYear(y: int) {
    (y % 4 == 0 && y % 100 != 0) || y % 400 == 0
  }

  function DaysInMonth(y: int, m: nat): nat
    requires 1 <= m <= 12
  {
    if m == 2 then (if LeapYear(y) then 29 else 28)
    else if m == 4 || m == 6 || m == 9 || m == 11 then 30
    else 31
  }

  /** A calendar instant in a year that a JavaScript `Date` holds in full. The
      range of `Date` is 8.64e15 ms either side of 1970, which ends part-way
      through the years -271821 and 275760; those two years are left out. */
  predicate ValidInstant(t: Instant) {
    && -271820 <= t.year <= 275759
    && 1 <= t.month <= 12 && 1 <= t.day <= DaysInMonth(t.year, t.month)
    && t.hour < 24 && t.minute < 60 && t.second < 60 && t.millis < 1000
  }

  function Pow10(k: nat): nat {
    if k == 0 then 1 else 10 * Pow10(k - 1)
  }

  /** `n` zero-padded to exactly `width` digits (its lowest `width` digits). */
  function Digits(n: nat, width: nat): (r: string)
    ensures |r| == width && AllDigits(r)
  {
    if width == 0 then "" else Digits(n / 10, width - 1) + [DigitChar(n % 10)]
  }

  /** A padded numeral reads back as the number whenever the number fits. */
  lemma {:induction false} DigitsValue(n: nat, width: nat)
    requires n < Pow10(width)
    ensures DecimalValue(Digits(n, width)) == n
  {
    if width > 0 {
      DigitsValue(n / 10, width - 1);
      var r := Digits(n, width);
      assert r[..|r| - 1] == Digits(n / 10, width - 1);
    }
  }

  /** The year as `toISOString` writes it: four digits for years 0 to 9999, else
      a sign and six digits. */
  function YearText(y: int): string {
    if 0 <= y <= 9999 then Digits(y, 4)
    else if y < 0 then "-" + Digits(-y, 6)
    else "+" + Digits(y, 6)
  }

  /** The date part, `YYYY-MM-DD`. */
  function DateText(t: Instant): string {
    YearText(t.year) + "-" + Digits(t.month, 2) + "-" + Digits(t.day, 2)
  }

  /** `toISOString()`: `YYYY-MM-DDTHH:mm:ss.sssZ`. */
  function IsoString(t: Instant): string {
    DateText(t) + "T" + Digits(t.hour, 2) + ":" + Digits(t.minute, 2) + ":"
      + Digits(t.second, 2) + "." + Digits(t.millis, 3) + "Z"
  }

  /** `toISOString().split('T')[0]`, the string stored for a term date. */
  function StoredDate(t: Instant): string {
    Split(IsoString(t), 'T')[0]
  }

  /** The text before the first `T` of the ISO string is its date part. */
  lemma StoredDateIsDateText(t: Instant)
    ensures StoredDate(t) == DateText(t)
  {
    var d := DateText(t);
    var rest := Digits(t.hour, 2) + ":" + Digits(t.minute, 2) + ":"
      + Digits(t.second, 2) + "." + Digits(t.millis, 3) + "Z";
    assert IsoString(t) == d + ['T'] + rest;
    assert 'T' !in d by {
      assert 'T' !in YearText(t.year);
      assert 'T' !in Digits(t.month, 2) && 'T' !in Digits(t.day, 2);
    }
    SplitAt(d, 'T', rest);
  }

  /** Where the three numerals of a `YYYY-MM-DD` text sit. */
  lemma DashedLayout(y: string, m: string, d: string)
    requires |y| == 4 && |m| == 2 && |d| == 2
    ensures var s := y + "-" + m + "-" + d;
      && |s| == 10 && s[4] == '-' && s[7] == '-'
      && s[..4] == y && s[5..7] == m && s[8..] == d
  {
    var s := y + "-" + m + "-" + d;
    assert s == (y + "-") + (m + "-" + d);
    assert s[5..] == m + "-" + d;
    assert s[5..7] == (m + "-" + d)[..2];
  }

  /** The numerals of a `YYYY-MM-DD` text read back as the numbers they were
      written from. */
  lemma DashedNumerals(y: string, m: string, d: string, year: nat, month: nat, day: nat)
    requires |y| == 4 && |m| == 2 && |d| == 2
    requires AllDigits(y) && AllDigits(m) && AllDigits(d)
    requires DecimalValue(y) == year && DecimalValue(m) == month && DecimalValue(d) == day
    ensures var s := y + "-" + m + "-" + d;
      && |s| == 10 && s[4] == '-' && s[7] == '-'
      && AllDigits(s[..4]) && DecimalValue(s[..4]) == year
      && AllDigits(s[5..7]) && DecimalValue(s[5..7]) == month
      && AllDigits(s[8..]) && DecimalValue(s[8..]) == day
  {
    DashedLayout(y, m, d);
  }

  /** For a four-digit year the date part is `YYYY-MM-DD`, and its numerals
      read back as the year, month and day. */
  lemma DateTextFields(t: Instant)
    requires ValidInstant(t) && 0 <= t.year <= 9999
    ensures var d := DateText(t);
      && |d| == 10 && d[4] == '-' && d[7] == '-'
      && AllDigits(d[..4]) && DecimalValue(d[..4]) == t.year
      && AllDigits(d[5..7]) && DecimalValue(d[5..7]) == t.month
      && AllDigits(d[8..]) && DecimalValue(d[8..]) == t.day
  {
    var y, m, dd := Digits(t.year, 4), Digits(t.month, 2), Digits(t.day, 2);
    assert Pow10(2) == 100 && Pow10(4) == 10000;
    assert t.day < 100 by {
      assert DaysInMonth(t.year, t.month) <= 31;
    }
    DigitsValue(t.year, 4);
    DigitsValue(t.month, 2);
    DigitsValue(t.day, 2);
    assert DateText(t) == y + "-" + m + "-" + dd;
    DashedNumerals(y, m, dd, t.year, t.month, t.day);
  }

  /** The stored term date is exactly the date part of the timestamp: ten
      characters `YYYY-MM-DD` for a four-digit year, whose three numerals read
      back as the year, month and day. */
  lemma StoredDateIsDatePart(t: Instant)
    requires ValidInstant(t)
    ensures StoredDate(t) == DateText(t)
    ensures 0 <= t.year <= 9999 ==>
      && |StoredDate(t)| == 10
      && StoredDate(t)[4] == '-' && StoredDate(t)[7] == '-'
      && AllDigits(StoredDate(t)[..4]) && DecimalValue(StoredDate(t)[..4]) == t.year
      && AllDigits(StoredDate(t)[5..7]) && DecimalValue(StoredDate(t)[5..7]) == t.month
      && AllDigits(StoredDate(t)[8..]) && DecimalValue(StoredDate(t)[8..]) == t.day
  {
    StoredDateIsDateText(t);
    if 0 <= t.year <= 9999 {
      DateTextFields(t);
    }
  }

  /** `new Date(s)` on a date-only text `YYYY-MM-DD`: midnight UTC of that day
      (in the ECMAScript Date Time String Format, date-only forms are read as
      UTC). Any other
      text is modelled as an Invalid Date, `None`. */
  function ParseDateOnly(s: string): (r: Option<Instant>)
    ensures r.Some? ==> ValidInstant(r.value) && 0 <= r.value.year <= 9999
    ensures r.Some? ==> r.value.hour == r.value.minute == r.value.second == r.value.millis == 0
  {
    if |s| == 10 && s[4] == '-' && s[7] == '-' && AllDigits(s[..4]) && AllDigits(s[5..7]) && AllDigits(s[8..]) then
      var y, m, d := DecimalValue(s[..4]), DecimalValue(s[5..7]), DecimalValue(s[8..]);
      assert y < 10000 by { DecimalValueBound(s[..4]); }
      if 1 <= m <= 12 && 1 <= d <= DaysInMonth(y, m) then Some(Instant(y, m, d, 0, 0, 0, 0)) else None
    else None
  }

  lemma {:induction false} DecimalValueBound(s: string)
    requires AllDigits(s)
    ensures DecimalValue(s) < Pow10(|s|)
  {
    if s != [] {
      DecimalValueBound(s[..|s| - 1]);
    }
  }

  /** A numeral written back at its own width is the numeral itself, leading
      zeros included. */
  lemma {:induction false} DigitsOfValue(s: string)
    requires AllDigits(s)
    ensures Digits(DecimalValue(s), |s|) == s
  {
    if s != [] {
      var init, c := s[..|s| - 1], s[|s| - 1];
      DigitsOfValue(init);
      var v := DecimalValue(s);
      assert v / 10 == DecimalValue(init) && v % 10 == c as int - '0' as int;
      assert DigitChar(c as int - '0' as int) == c;
      assert s == init + [c];
    }
  }

  /** A stored date text read back by `new Date` and stored again is the same
      text. */
  lemma StoredDateOfParsed(s: string)
    requires ParseDateOnly(s).Some?
    ensures StoredDate(ParseDateOnly(s).value) == s
  {
    var t := ParseDateOnly(s).value;
    var y, m, d := s[..4], s[5..7], s[8..];
    assert t.year == DecimalValue(y) && t.month == DecimalValue(m) && t.day == DecimalValue(d);
    StoredDateIsDateText(t);
    DigitsOfValue(y);
    DigitsOfValue(m);
    DigitsOfValue(d);
    assert DateText(t) == y + "-" + m + "-" + d;
    DashedSplit(s);
  }

  /** A ten-character text with dashes at 4 and 7 is its three numerals
      joined by dashes. */
  lemma DashedSplit(s: string)
    requires |s| == 10 && s[4] == '-' && s[7] == '-'
    ensures s == s[..4] + "-" + s[5..7] + "-" + s[8..]
  {
    DashedLayout(s[..4], s[5..7], s[8..]);
    var u := s[..4] + "-" + s[5..7] + "-" + s[8..];
    assert forall i :: 0 <= i < 10 ==> u[i] == s[i];
  }

  /** The text stored for a four-digit-year instant reads back as midnight UTC
      of the same day. */
  lemma ParsedStoredDate(t: Instant)
    requires ValidInstant(t) && 0 <= t.year <= 9999
    ensures ParseDateOnly(StoredDate(t)) == Some(Instant(t.year, t.month, t.day, 0, 0, 0, 0))
  {
    StoredDateIsDatePart(t);
  }

  // ---------------------------------------------------------------------------
  // The form
  // ---------------------------------------------------------------------------

  /** The form's state; the optional fields and the not-yet-picked dates are
      `None`. */
  datatype BoardMemberValues = BoardMemberValues(
    nameEn: string, nameAr: string,
    titleEn: string, titleAr: string,
    bioEn: Option<string>, bioAr: Option<string>,
    imageUrl: Option<string>,
    termStartDate: Option<Instant>, termEndDate: Option<Instant>)

  /** A stored profile as handed to the edit page: the record as stored, its
      term dates the `YYYY-MM-DD` texts a save writes, `None` where the record
      has none. */
  datatype StoredBoardMember = StoredBoardMember(
    nameEn: string, nameAr: string,
    titleEn: string, titleAr: string,
    bioEn: Option<string>, bioAr: Option<string>,
    imageUrl: Option<string>,
    termStartDate: Option<string>, termEndDate: Option<string>)

  /** `formSchema`: names and titles of at least two characters, optional bios,
      an image URL that is absent, empty or a URL, and both term dates. */
  predicate Valid(v: BoardMemberValues, z: Checks) {
    && MinLength(v.nameEn, 2) && MinLength(v.nameAr, 2)
    && MinLength(v.titleEn, 2) && MinLength(v.titleAr, 2)
    && (v.imageUrl.None? || v.imageUrl.value == "" || z.isUrl(v.imageUrl.value))
    && v.termStartDate.Some? && ValidInstant(v.termStartDate.value)
    && v.termEndDate.Some? && ValidInstant(v.termEndDate.value)
  }

  /** The form's date for a stored term date: the text read by `new Date`
      when it is non-empty, else `now`. `None` is an Invalid Date. */
  function TermDate(stored: Option<string>, now: Instant): Option<Instant> {
    if Truthy(stored) then ParseDateOnly(stored.value) else Some(now)
  }

  /** `defaultValues`: a new form has every text field empty and no dates; an
      edited profile keeps its fields, and reads each term date back with
      `new Date`, or takes `now` when the record has none. */
  function DefaultValues(initial: Option<StoredBoardMember>, now: Instant): (v: BoardMemberValues)
    ensures initial.None? ==> v == BoardMemberValues("", "", "", "", Some(""), Some(""), Some(""), None, None)
    ensures initial.Some? ==>
      && v.nameEn == initial.value.nameEn && v.nameAr == initial.value.nameAr
      && v.titleEn == initial.value.titleEn && v.titleAr == initial.value.titleAr
      && v.bioEn == initial.value.bioEn && v.bioAr == initial.value.bioAr
      && v.imageUrl == initial.value.imageUrl
      && (!Truthy(initial.value.termStartDate) ==> v.termStartDate == Some(now))
      && (!Truthy(initial.value.termEndDate) ==> v.termEndDate == Some(now))
  {
    match initial
    case None => BoardMemberValues("", "", "", "", Some(""), Some(""), Some(""), None, None)
    case Some(m) =>
      BoardMemberValues(m.nameEn, m.nameAr, m.titleEn, m.titleAr, m.bioEn, m.bioAr, m.imageUrl,
        TermDate(m.termStartDate, now), TermDate(m.termEndDate, now))
  }

  /** A field that Zod left out of the parsed values is left out of the record. */
  function OptionalField(r: Record, key: string, v: Option<string>): Record {
    if v.Some? then r[key := Str(v.value)] else r
  }

  /** The fields every record has: names, titles and the two term dates. */
  function RequiredFields(v: BoardMemberValues): Record
    requires v.termStartDate.Some? && v.termEndDate.Some?
  {
    map[
      "nameEn" := Str(v.nameEn), "nameAr" := Str(v.nameAr),
      "titleEn" := Str(v.titleEn), "titleAr" := Str(v.titleAr),
      "termStartDate" := Str(StoredDate(v.termStartDate.value)),
      "termEndDate" := Str(StoredDate(v.termEndDate.value))
    ]
  }

  /** `dataToSubmit`: the parsed values with both term dates as `YYYY-MM-DD`. */
  function Payload(v: BoardMemberValues): Record
    requires v.termStartDate.Some? && v.termEndDate.Some?
  {
    OptionalField(OptionalField(OptionalField(RequiredFields(v), "bioEn", v.bioEn), "bioAr", v.bioAr), "imageUrl", v.imageUrl)
  }

  /** A new form starts with every text field empty and no term dates, so it
      does not pass validation until the form is filled in. */
  lemma NewFormEmpty(now: Instant, z: Checks)
    ensures var v := DefaultValues(None, now);
      && v.nameEn == v.nameAr == v.titleEn == v.titleAr == ""
      && v.bioEn == v.bioAr == v.imageUrl == Some("")
      && v.termStartDate.None? && v.termEndDate.None?
      && !Valid(v, z)
  {
  }

  /** An optional field is in the record exactly when it was given, with the
      value given; every other field is untouched. */
  lemma OptionalFieldSpec(r: Record, key: string, v: Option<string>, other: string)
    requires other != key
    ensures key in OptionalField(r, key, v) <==> v.Some? || key in r
    ensures v.Some? ==> OptionalField(r, key, v)[key] == Str(v.value)
    ensures v.None? ==> OptionalField(r, key, v) == r
    ensures (other in OptionalField(r, key, v) <==> other in r)
    ensures other in r ==> OptionalField(r, key, v)[other] == r[other]
  {
  }

  /** The optional fields never overwrite a required one. */
  lemma PayloadKeepsRequired(v: BoardMemberValues, k: string)
    requires v.termStartDate.Some? && v.termEndDate.Some?
    requires k in RequiredFields(v)
    ensures k in Payload(v) && Payload(v)[k] == RequiredFields(v)[k]
  {
    var r0 := RequiredFields(v);
    var r1 := OptionalField(r0, "bioEn", v.bioEn);
    var r2 := OptionalField(r1, "bioAr", v.bioAr);
    assert k != "bioEn" && k != "bioAr" && k != "imageUrl";
    OptionalFieldSpec(r0, "bioEn", v.bioEn, k);
    OptionalFieldSpec(r1, "bioAr", v.bioAr, k);
    OptionalFieldSpec(r2, "imageUrl", v.imageUrl, k);
  }

  /** Each optional field is in the record exactly when it was given. */
  lemma PayloadOptionals(v: BoardMemberValues)
    requires v.termStartDate.Some? && v.termEndDate.Some?
    ensures var r := Payload(v);
      && ("bioEn" in r <==> v.bioEn.Some?) && (v.bioEn.Some? ==> r["bioEn"] == Str(v.bioEn.value))
      && ("bioAr" in r <==> v.bioAr.Some?) && (v.bioAr.Some? ==> r["bioAr"] == Str(v.bioAr.value))
      && ("imageUrl" in r <==> v.imageUrl.Some?) && (v.imageUrl.Some? ==> r["imageUrl"] == Str(v.imageUrl.value))
  {
    var r0 := RequiredFields(v);
    var r1 := OptionalField(r0, "bioEn", v.bioEn);
    var r2 := OptionalField(r1, "bioAr", v.bioAr);
    assert "bioEn" !in r0 && "bioAr" !in r0 && "imageUrl" !in r0;
    OptionalFieldSpec(r0, "bioEn", v.bioEn, "bioAr");
    OptionalFieldSpec(r0, "bioEn", v.bioEn, "imageUrl");
    OptionalFieldSpec(r1, "bioAr", v.bioAr, "bioEn");
    OptionalFieldSpec(r1, "bioAr", v.bioAr, "imageUrl");
    OptionalFieldSpec(r2, "imageUrl", v.imageUrl, "bioEn");
    OptionalFieldSpec(r2, "imageUrl", v.imageUrl, "bioAr");
  }

  /** The record copies every text field as entered, keeps an optional field
      exactly when it was given, and stores each term date as its `YYYY-MM-DD`
      part. */
  lemma PayloadFields(v: BoardMemberValues)
    requires v.termStartDate.Some? && ValidInstant(v.termStartDate.value)
    requires v.termEndDate.Some? && ValidInstant(v.termEndDate.value)
    ensures var r := Payload(v);
      && r["nameEn"] == Str(v.nameEn) && r["nameAr"] == Str(v.nameAr)
      && r["titleEn"] == Str(v.titleEn) && r["titleAr"] == Str(v.titleAr)
      && ("bioEn" in r <==> v.bioEn.Some?) && (v.bioEn.Some? ==> r["bioEn"] == Str(v.bioEn.value))
      && ("bioAr" in r <==> v.bioAr.Some?) && (v.bioAr.Some? ==> r["bioAr"] == Str(v.bioAr.value))
      && ("imageUrl" in r <==> v.imageUrl.Some?) && (v.imageUrl.Some? ==> r["imageUrl"] == Str(v.imageUrl.value))
      && r["termStartDate"] == Str(DateText(v.termStartDate.value))
      && r["termEndDate"] == Str(DateText(v.termEndDate.value))
  {
    PayloadKeepsRequired(v, "nameEn");
    PayloadKeepsRequired(v, "nameAr");
    PayloadKeepsRequired(v, "titleEn");
    PayloadKeepsRequired(v, "titleAr");
    PayloadKeepsRequired(v, "termStartDate");
    PayloadKeepsRequired(v, "termEndDate");
    PayloadOptionals(v);
    StoredDateIsDateText(v.termStartDate.value);
    StoredDateIsDateText(v.termEndDate.value);
  }

  /** Opening a stored profile and saving it unedited writes back every text
      field as stored, keeps the optional fields it had, and writes each stored
      term date back as the same text; a missing term date is saved as the
      date part of `now`. */
  lemma EditRoundTrip(m: StoredBoardMember, now: Instant)
    requires ValidInstant(now)
    requires Truthy(m.termStartDate) ==> ParseDateOnly(m.termStartDate.value).Some?
    requires Truthy(m.termEndDate) ==> ParseDateOnly(m.termEndDate.value).Some?
    ensures var v := DefaultValues(Some(m), now);
      && v.termStartDate.Some? && v.termEndDate.Some?
      && var r := Payload(v);
      && r["nameEn"] == Str(m.nameEn) && r["nameAr"] == Str(m.nameAr)
      && r["titleEn"] == Str(m.titleEn) && r["titleAr"] == Str(m.titleAr)
      && ("bioEn" in r <==> m.bioEn.Some?) && (m.bioEn.Some? ==> r["bioEn"] == Str(m.bioEn.value))
      && ("bioAr" in r <==> m.bioAr.Some?) && (m.bioAr.Some? ==> r["bioAr"] == Str(m.bioAr.value))
      && ("imageUrl" in r <==> m.imageUrl.Some?) && (m.imageUrl.Some? ==> r["imageUrl"] == Str(m.imageUrl.value))
      && r["termStartDate"] == Str(if Truthy(m.termStartDate) then m.termStartDate.value else DateText(now))
      && r["termEndDate"] == Str(if Truthy(m.termEndDate) then m.termEndDate.value else DateText(now))
  {
    var v := DefaultValues(Some(m), now);
    PayloadFields(v);
    if Truthy(m.termStartDate) { StoredDateOfParsed(m.termStartDate.value); }
    if Truthy(m.termEndDate) { StoredDateOfParsed(m.termEndDate.value); }
    StoredDateIsDateText(v.termStartDate.value);
    StoredDateIsDateText(v.termEndDate.value);
  }

  /** The submit button. Values that fail the schema never reach `onSubmit`.
      `db` is null when the store is unavailable; `autoId` is the id the store
      would give a new record. */
  method Submit(db: Store?, docId: Option<string>, values: BoardMemberValues, z: Checks, autoId: string)
    returns (effects: seq<Effect>)
    requires db != null && Valid(values, z) && !Truthy(docId) ==> autoId != "" && autoId !in db.Docs(Collection)
    modifies db
    ensures !Valid(values, z) ==>
      effects == [] && (db != null ==> db.collections == old(db.collections) && db.pending == old(db.pending))
    ensures Valid(values, z) && db == null ==> effects == [ShowToast(Toast(true, "Firestore not available", None))]
    ensures Valid(values, z) && db != null && !Truthy(docId) ==>
      && db.collections == WithAdded(old(db.collections), Collection, autoId, Payload(values))
      && effects == [ShowToast(Toast(false, "Success", Some("New board member added."))), Push("/admin/board-members"), Refresh]
    ensures Valid(values, z) && db != null && Truthy(docId) && docId.value in old(db.Docs(Collection)) ==>
      && db.collections == WithUpdated(old(db.collections), Collection, docId.value, Payload(values))
      && effects == [ShowToast(Toast(false, "Success", Some("Board member profile updated."))), Push("/admin/board-members"), Refresh]
    ensures Valid(values, z) && db != null && Truthy(docId) && docId.value !in old(db.Docs(Collection)) ==>
      && db.collections == old(db.collections)
      && effects == [ShowToast(Toast(true, "Error", Some("Failed to save board member profile.")))]
    ensures db != null ==> db.pending == old(db.pending)
  {
    if !Valid(values, z) {
      return [];
    }
    if db == null {
      return [ShowToast(Toast(true, "Firestore not available", None))];
    }
    var data := Payload(values);
    if Truthy(docId) {
      var ok := db.UpdateDoc(Collection, docId.value, data);
      if !ok {
        return [ShowToast(Toast(true, "Error", Some("Failed to save board member profile.")))];
      }
      effects := [ShowToast(Toast(false, "Success", Some("Board member profile updated.")))];
    } else {
      var _ := db.AddDoc(Collection, data, autoId);
      effects := [ShowToast(Toast(false, "Success", Some("New board member added.")))];
    }
    effects := effects + [Push("/admin/board-members"), Refresh];
  }
}
