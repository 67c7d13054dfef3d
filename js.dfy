/**
 * The few JavaScript primitives the forms rely on: optional values, truthiness of
 * strings, `String.prototype.split` with a one-character separator,
 * `Array.prototype.join`, `String.prototype.trim`, and plain objects whose property
 * values are strings (`Record<string, string>`), kept as their ordered list of own
 * properties.
 */
module Js {

  /** `undefined`/`null` versus a present value. */
  datatype Option<+T> = None | Some(value: T)

  /** A string is truthy in JavaScript exactly when it is not empty. */
  predicate Truthy(s: Option<string>) {
    s.Some? && s.value != ""
  }

  // ---------------------------------------------------------------------------
  // split / join
  // ---------------------------------------------------------------------------

  /** Number of occurrences of `c` in `s`. */
  function Count(s: string, c: char): nat {
    if s == [] then 0 else (if s[0] == c then 1 else 0) + Count(s[1..], c)
  }

  /** `s.split(sep)` for a one-character separator: the pieces between separators,
      so the empty string gives `[""]` and there is always at least one piece. */
  function Split(s: string, sep: char): (r: seq<string>)
    ensures |r| >= 1
  {
    if s == [] then [""]
    else if s[0] == sep then [""] + Split(s[1..], sep)
    else
      var rest := Split(s[1..], sep);
      [[s[0]] + rest[0]] + rest[1..]
  }

  /** `xs.join(sep)`: the empty list gives the empty string. */
  function Join(xs: seq<string>, sep: string): string {
    if xs == [] then ""
    else if |xs| == 1 then xs[0]
    else xs[0] + sep + Join(xs[1..], sep)
  }

  /** Splitting yields one piece more than there are separators. */
  lemma {:induction false} SplitLength(s: string, sep: char)
    ensures |Split(s, sep)| == Count(s, sep) + 1
  {
    if s != [] {
      SplitLength(s[1..], sep);
    }
  }

  /** No piece of a split contains the separator. */
  lemma {:induction false} SplitPiecesFree(s: string, sep: char)
    ensures forall i :: 0 <= i < |Split(s, sep)| ==> sep !in Split(s, sep)[i]
  {
    if s != [] {
      SplitPiecesFree(s[1..], sep);
    }
  }

  /** Joining the pieces of a split with the separator gives back the string. */
  lemma {:induction false} JoinSplit(s: string, sep: char)
    ensures Join(Split(s, sep), [sep]) == s
  {
    if s != [] {
      JoinSplit(s[1..], sep);
      var rest := Split(s[1..], sep);
      if s[0] != sep && |rest| > 1 {
        assert Join(rest, [sep]) == rest[0] + [sep] + Join(rest[1..], [sep]);
        assert ([[s[0]] + rest[0]] + rest[1..])[1..] == rest[1..];
      }
    }
  }

  /** A string without the separator splits into itself alone. */
  lemma {:induction false} SplitNoSep(a: string, sep: char)
    requires sep !in a
    ensures Split(a, sep) == [a]
  {
    if a != [] {
      assert a[0] in a;
      SplitNoSep(a[1..], sep);
      assert [a[0]] + a[1..] == a;
    }
  }

  /** A separator-free head is the first piece; the rest splits on its own. */
  lemma {:induction false} SplitAt(a: string, sep: char, b: string)
    requires sep !in a
    ensures Split(a + [sep] + b, sep) == [a] + Split(b, sep)
  {
    if a == [] {
      assert (a + [sep] + b)[1..] == b;
    } else {
      var s := a + [sep] + b;
      assert s[0] == a[0] && s[1..] == a[1..] + [sep] + b;
      SplitAt(a[1..], sep, b);
      var rest := Split(s[1..], sep);
      assert rest[0] == a[1..] && rest[1..] == Split(b, sep);
      assert [s[0]] + rest[0] == a;
    }
  }

  /** Splitting a join of separator-free pieces gives the pieces back (a split
      always yields at least one piece, so the list must not be empty). */
  lemma {:induction false} SplitJoin(xs: seq<string>, sep: char)
    requires |xs| >= 1
    requires forall i :: 0 <= i < |xs| ==> sep !in xs[i]
    ensures Split(Join(xs, [sep]), sep) == xs
  {
    if |xs| == 1 {
      SplitNoSep(xs[0], sep);
    } else {
      SplitJoin(xs[1..], sep);
      SplitAt(xs[0], sep, Join(xs[1..], [sep]));
    }
  }

  // ---------------------------------------------------------------------------
  // Decimal digits
  // ---------------------------------------------------------------------------

  /** `/\d/`: an ASCII decimal digit (JavaScript's `\d` matches no other digit). */
  predicate IsDigit(c: char) {
    '0' <= c <= '9'
  }

  /** `/^\d*$/`: only ASCII digits, the empty string included. */
  predicate AllDigits(s: string) {
    forall i :: 0 <= i < |s| ==> IsDigit(s[i])
  }

  function DigitChar(d: nat): (c: char)
    requires d < 10
    ensures IsDigit(c)
  {
    ['0', '1', '2', '3', '4', '5', '6', '7', '8', '9'][d]
  }

  /** `Number(s)` for a string of digits: the empty string is 0 and leading
      zeros do not count. */
  function DecimalValue(s: string): nat
    requires AllDigits(s)
  {
    if s == [] then 0
    else DecimalValue(s[..|s| - 1]) * 10 + (s[|s| - 1] as int - '0' as int)
  }

  /** `String(n)` for a natural number: its shortest decimal numeral. */
  function NatToString(n: nat): (s: string)
    ensures AllDigits(s) && |s| >= 1
  {
    if n < 10 then [DigitChar(n)] else NatToString(n / 10) + [DigitChar(n % 10)]
  }

  /** Reading back a rendered number gives the number. */
  lemma {:induction false} DecimalValueOfNatToString(n: nat)
    ensures DecimalValue(NatToString(n)) == n
  {
    var s := NatToString(n);
    if n >= 10 {
      DecimalValueOfNatToString(n / 10);
      assert s[..|s| - 1] == NatToString(n / 10);
    }
  }

  /** `String(n)` has no leading zero, except for zero itself. */
  lemma {:induction false} NatToStringNoLeadingZero(n: nat)
    ensures |NatToString(n)| > 1 ==> NatToString(n)[0] != '0'
    ensures NatToString(n) == "0" <==> n == 0
  {
    if n >= 10 {
      NatToStringNoLeadingZero(n / 10);
      assert NatToString(n)[0] == NatToString(n / 10)[0];
    }
  }

  // ---------------------------------------------------------------------------
  // trim
  // ---------------------------------------------------------------------------

  /** The characters `String.prototype.trim` removes: ECMAScript WhiteSpace and
      LineTerminator code points. */
  predicate IsWhitespace(c: char) {
    || c == '\t' || c == '\n' || c == '\U{000B}' || c == '\U{000C}' || c == '\r'
    || c == ' ' || c == '\U{00A0}' || c == '\U{1680}'
    || ('\U{2000}' <= c <= '\U{200A}')
    || c == '\U{2028}' || c == '\U{2029}' || c == '\U{202F}' || c == '\U{205F}'
    || c == '\U{3000}' || c == '\U{FEFF}'
  }

  /** Neither starts nor ends with whitespace. */
  predicate Trimmed(s: string) {
    s == [] || (!IsWhitespace(s[0]) && !IsWhitespace(s[|s| - 1]))
  }

  predicate AllWhitespace(s: string) {
    forall i :: 0 <= i < |s| ==> IsWhitespace(s[i])
  }

  function TrimStart(s: string): string {
    if s != [] && IsWhitespace(s[0]) then TrimStart(s[1..]) else s
  }

  function TrimEnd(s: string): string {
    if s != [] && IsWhitespace(s[|s| - 1]) then TrimEnd(s[..|s| - 1]) else s
  }

  /** `s.trim()`. */
  function Trim(s: string): string {
    TrimEnd(TrimStart(s))
  }

  lemma {:induction false} TrimStartNoLeading(s: string)
    ensures TrimStart(s) == [] || !IsWhitespace(TrimStart(s)[0])
  {
    if s != [] && IsWhitespace(s[0]) {
      TrimStartNoLeading(s[1..]);
    }
  }

  lemma {:induction false} TrimEndNoTrailing(s: string)
    ensures TrimEnd(s) == [] || !IsWhitespace(TrimEnd(s)[|TrimEnd(s)| - 1])
  {
    if s != [] && IsWhitespace(s[|s| - 1]) {
      TrimEndNoTrailing(s[..|s| - 1]);
    }
  }

  lemma {:induction false} TrimEndPrefix(s: string)
    ensures TrimEnd(s) <= s
  {
    if s != [] && IsWhitespace(s[|s| - 1]) {
      TrimEndPrefix(s[..|s| - 1]);
    }
  }

  lemma {:induction false} TrimStartSuffix(s: string)
    ensures |TrimStart(s)| <= |s| && TrimStart(s) == s[|s| - |TrimStart(s)|..]
  {
    if s != [] && IsWhitespace(s[0]) {
      TrimStartSuffix(s[1..]);
    }
  }

  /** `trim` only removes characters, so it cannot introduce one. */
  lemma TrimNoNewChars(s: string, c: char)
    requires c !in s
    ensures c !in Trim(s)
  {
    var t := TrimStart(s);
    TrimStartSuffix(s);
    TrimEndPrefix(t);
    assert forall i :: 0 <= i < |t| ==> t[i] == s[|s| - |t| + i];
  }

  /** The result of `trim` neither starts nor ends with whitespace. */
  lemma TrimIsTrimmed(s: string)
    ensures Trimmed(Trim(s))
  {
    var t := TrimStart(s);
    TrimStartNoLeading(s);
    TrimEndNoTrailing(t);
    var r := TrimEnd(t);
    TrimEndPrefix(t);
    if r != [] {
      assert r[0] == t[0];
    }
  }

  /** Trimming a trimmed string changes nothing. */
  lemma TrimTrimmed(s: string)
    requires Trimmed(s)
    ensures Trim(s) == s
  {
  }

  /** Leading whitespace in front of a trimmed string is all that `trim` removes. */
  lemma {:induction false} TrimAfterWhitespace(w: string, x: string)
    requires AllWhitespace(w) && Trimmed(x)
    ensures Trim(w + x) == x
  {
    if w != [] {
      assert (w + x)[0] == w[0];
      assert (w + x)[1..] == w[1..] + x;
      TrimAfterWhitespace(w[1..], x);
    }
  }

  // ---------------------------------------------------------------------------
  // map(trim) / filter(non-empty) over a list of strings
  // ---------------------------------------------------------------------------

  /** `xs.map(x => x.trim())`. */
  function TrimEach(xs: seq<string>): seq<string> {
    seq(|xs|, i requires 0 <= i < |xs| => Trim(xs[i]))
  }

  /** `xs.filter(x => x)`: keeps the non-empty strings, in order. */
  function DropEmpty(xs: seq<string>): (r: seq<string>)
    ensures |r| <= |xs|
    ensures forall i :: 0 <= i < |r| ==> r[i] != ""
    ensures forall x :: x in r <==> x in xs && x != ""
  {
    if xs == [] then []
    else if xs[0] == "" then DropEmpty(xs[1..])
    else [xs[0]] + DropEmpty(xs[1..])
  }

  /** Filtering a list with no empty string keeps it whole. */
  lemma {:induction false} DropEmptyNone(xs: seq<string>)
    requires forall i :: 0 <= i < |xs| ==> xs[i] != ""
    ensures DropEmpty(xs) == xs
  {
    if xs != [] {
      DropEmptyNone(xs[1..]);
    }
  }

  lemma JoinUnfold(xs: seq<string>, w: string)
    requires |xs| >= 2
    ensures w + Join(xs, ", ") == (w + xs[0]) + [','] + (" " + Join(xs[1..], ", "))
  {
  }

  lemma NoSepAfterWhitespace(w: string, x: string)
    requires AllWhitespace(w) && ',' !in x
    ensures ',' !in w + x
  {
    assert !IsWhitespace(',');
  }

  lemma TrimEachCons(a: string, rest: seq<string>)
    ensures TrimEach([a] + rest) == [Trim(a)] + TrimEach(rest)
  {
  }

  lemma AllWhitespaceSpace()
    ensures AllWhitespace(" ")
  {
  }

  /** The editing round trip: items joined with `", "`, split again on `","` and
      trimmed come back unchanged, provided no item contains a comma or has
      whitespace at either end. `w` is whitespace already in front of the text. */
  lemma {:induction false} SplitTrimJoin(xs: seq<string>, w: string)
    requires |xs| >= 1 && AllWhitespace(w)
    requires forall i :: 0 <= i < |xs| ==> ',' !in xs[i] && Trimmed(xs[i])
    ensures TrimEach(Split(w + Join(xs, ", "), ',')) == xs
  {
    NoSepAfterWhitespace(w, xs[0]);
    TrimAfterWhitespace(w, xs[0]);
    if |xs| == 1 {
      SplitNoSep(w + xs[0], ',');
    } else {
      var tail := " " + Join(xs[1..], ", ");
      JoinUnfold(xs, w);
      SplitAt(w + xs[0], ',', tail);
      AllWhitespaceSpace();
      SplitTrimJoin(xs[1..], " ");
      TrimEachCons(w + xs[0], Split(tail, ','));
      assert xs == [xs[0]] + xs[1..];
    }
  }

  // ---------------------------------------------------------------------------
  // Plain objects with string values
  // ---------------------------------------------------------------------------

  /** One own property of an object, as `Object.entries` reports it. */
  datatype Entry = Entry(key: string, value: string)

  function Keys(ps: seq<Entry>): set<string> {
    set i | 0 <= i < |ps| :: ps[i].key
  }

  lemma KeysCons(e: Entry, ps: seq<Entry>)
    ensures Keys([e] + ps) == {e.key} + Keys(ps)
  {
    var r := [e] + ps;
    forall k | k in Keys(ps) ensures k in Keys(r) {
      var i :| 0 <= i < |ps| && ps[i].key == k;
      assert r[i + 1] == ps[i];
    }
    forall k | k in Keys(r) ensures k == e.key || k in Keys(ps) {
      var i :| 0 <= i < |r| && r[i].key == k;
      if i > 0 {
        assert ps[i - 1] == r[i];
      }
    }
    assert r[0] == e;
  }

  /** A JavaScript object never holds the same own property twice. */
  predicate DistinctKeys(ps: seq<Entry>) {
    forall i, j :: 0 <= i < j < |ps| ==> ps[i].key != ps[j].key
  }

  /** `obj[k]`, `None` for a missing property. */
  function Lookup(ps: seq<Entry>, k: string): (r: Option<string>)
    ensures r.Some? <==> k in Keys(ps)
  {
    if ps == [] then None
    else if ps[0].key == k then Some(ps[0].value)
    else
      assert Keys(ps) == {ps[0].key} + Keys(ps[1..]);
      Lookup(ps[1..], k)
  }

  /** `{ ...obj, [k]: v }`: an existing property keeps its place and takes the new
      value; a new property is appended. */
  function Put(ps: seq<Entry>, k: string, v: string): seq<Entry> {
    if ps == [] then [Entry(k, v)]
    else if ps[0].key == k then [Entry(k, v)] + ps[1..]
    else [ps[0]] + Put(ps[1..], k, v)
  }

  lemma {:induction false} PutKeys(ps: seq<Entry>, k: string, v: string)
    ensures Keys(Put(ps, k, v)) == Keys(ps) + {k}
  {
    if ps == [] {
      KeysCons(Entry(k, v), []);
      assert [Entry(k, v)] + [] == Put(ps, k, v);
    } else {
      KeysCons(ps[0], ps[1..]);
      assert [ps[0]] + ps[1..] == ps;
      if ps[0].key == k {
        KeysCons(Entry(k, v), ps[1..]);
      } else {
        PutKeys(ps[1..], k, v);
        KeysCons(ps[0], Put(ps[1..], k, v));
      }
    }
  }

  /** Writing a property never duplicates a key. */
  lemma {:induction false} PutDistinct(ps: seq<Entry>, k: string, v: string)
    requires DistinctKeys(ps)
    ensures DistinctKeys(Put(ps, k, v))
  {
    if ps != [] && ps[0].key != k {
      PutDistinct(ps[1..], k, v);
      PutKeys(ps[1..], k, v);
      KeysCons(ps[0], ps[1..]);
      assert [ps[0]] + ps[1..] == ps;
      var r := Put(ps, k, v);
      assert r[1..] == Put(ps[1..], k, v);
      forall i | 1 <= i < |ps| ensures ps[i].key != ps[0].key { }
      assert ps[0].key !in Keys(ps[1..]);
      forall i | 1 <= i < |r| ensures r[i].key != r[0].key {
        assert r[i].key in Keys(r[1..]);
      }
    }
  }

  /** After `{ ...obj, [k]: v }`, property k reads v and every other property reads
      what it read before. */
  lemma {:induction false} PutLookup(ps: seq<Entry>, k: string, v: string, j: string)
    ensures Lookup(Put(ps, k, v), j) == if j == k then Some(v) else Lookup(ps, j)
  {
    if ps != [] && ps[0].key != k {
      PutLookup(ps[1..], k, v, j);
      assert Put(ps, k, v)[1..] == Put(ps[1..], k, v);
    } else if ps != [] {
      assert Put(ps, k, v)[1..] == ps[1..];
    }
  }

  /** A property the object does not have yet is appended at the end. */
  lemma {:induction false} PutAppends(ps: seq<Entry>, k: string, v: string)
    requires k !in Keys(ps)
    ensures Put(ps, k, v) == ps + [Entry(k, v)]
  {
    if ps != [] {
      KeysCons(ps[0], ps[1..]);
      assert [ps[0]] + ps[1..] == ps;
      PutAppends(ps[1..], k, v);
      assert [ps[0]] + (ps[1..] + [Entry(k, v)]) == ps + [Entry(k, v)];
    }
  }
}
