/** The few JavaScript value semantics the two pages lean on: a field read
    from a JSON record may be a string, `null` or `undefined`; `||` and
    `filter(Boolean)` test truthiness; `toLowerCase`/`includes` do the text
    search; the default `Array.prototype.sort` orders by string conversion and
    puts `undefined` last. */
module Js {

  datatype Option<+T> = None | Some(value: T)

  /** A field of a record received as JSON. */
  datatype Value = Undefined | Null | Str(s: string)

  /** JavaScript truthiness of a field: only a non-empty string is truthy. */
  predicate Truthy(v: Value) {
    v.Str? && v.s != ""
  }

  // ---------------------------------------------------------------- text

  /** `toLowerCase` on one character, for the ASCII letters. */
  function LowerChar(ch: char): (r: char)
    ensures 'A' <= ch <= 'Z' ==> 'a' <= r <= 'z' && r as int - ch as int == 32
    ensures !('A' <= ch <= 'Z') ==> r == ch
  {
    if 'A' <= ch <= 'Z' then (ch as int + 32) as char else ch
  }

  /** `s.toLowerCase()`: same length, every upper-case ASCII letter mapped down. */
  function Lower(s: string): (r: string)
    ensures |r| == |s|
    ensures forall i :: 0 <= i < |s| ==> r[i] == LowerChar(s[i])
    ensures forall i :: 0 <= i < |r| ==> !('A' <= r[i] <= 'Z')
  {
    seq(|s|, i requires 0 <= i < |s| => LowerChar(s[i]))
  }

  /** `needle` occurs in `hay` starting at offset `i`. */
  predicate OccursAt(hay: string, needle: string, i: nat) {
    i + |needle| <= |hay| && hay[i..i + |needle|] == needle
  }

  /** `hay.includes(needle)`: `needle` occurs at some offset of `hay`. */
  predicate Includes(hay: string, needle: string) {
    exists i: nat | i <= |hay| :: OccursAt(hay, needle, i)
  }

  /** The empty string is included in every string, so an empty search
      matches everything. */
  lemma IncludesEmpty(hay: string)
    ensures Includes(hay, "")
  {
    assert OccursAt(hay, "", 0);
  }

  /** Case-insensitive search as both pages write it:
      `title.toLowerCase().includes(term.toLowerCase())`. */
  predicate MatchesSearch(title: string, term: string) {
    Includes(Lower(title), Lower(term))
  }

  lemma EmptySearchMatches(title: string)
    ensures MatchesSearch(title, "")
  {
    IncludesEmpty(Lower(title));
  }

  // ------------------------------------------------------------- ordering

  /** Code-point order on strings: a proper prefix comes first, otherwise the
      first differing character decides. */
  predicate StrLe(a: string, b: string) {
    a == [] || (b != [] && (a[0] < b[0] || (a[0] == b[0] && StrLe(a[1..], b[1..]))))
  }

  lemma {:induction false} StrLeRefl(a: string)
    ensures StrLe(a, a)
  {
    if a != [] { StrLeRefl(a[1..]); }
  }

  lemma {:induction false} StrLeTotal(a: string, b: string)
    ensures StrLe(a, b) || StrLe(b, a)
  {
    if a != [] && b != [] && a[0] == b[0] { StrLeTotal(a[1..], b[1..]); }
  }

  lemma {:induction false} StrLeTrans(a: string, b: string, c: string)
    requires StrLe(a, b) && StrLe(b, c)
    ensures StrLe(a, c)
  {
    if a != [] && b != [] && c != [] && a[0] == b[0] && b[0] == c[0] {
      StrLeTrans(a[1..], b[1..], c[1..]);
    }
  }

  /** The position a value takes in a sort: either text to compare, or the
      end of the array (where the default sort puts `undefined`). */
  datatype SortKey = Text(t: string) | Last

  predicate KeyLe(a: SortKey, b: SortKey) {
    match (a, b)
    case (_, Last) => true
    case (Last, Text(_)) => false
    case (Text(x), Text(y)) => StrLe(x, y)
  }

  lemma KeyLeRefl(a: SortKey)
    ensures KeyLe(a, a)
  {
    if a.Text? { StrLeRefl(a.t); }
  }

  lemma KeyLeTotal(a: SortKey, b: SortKey)
    ensures KeyLe(a, b) || KeyLe(b, a)
  {
    if a.Text? && b.Text? { StrLeTotal(a.t, b.t); }
  }

  lemma KeyLeTrans(a: SortKey, b: SortKey, c: SortKey)
    requires KeyLe(a, b) && KeyLe(b, c)
    ensures KeyLe(a, c)
  {
    if a.Text? && b.Text? && c.Text? { StrLeTrans(a.t, b.t, c.t); }
  }

  /** The key of the default `sort()`: `undefined` goes last, everything else
      is compared as its string conversion (`null` becomes "null"). */
  function DefaultKey(v: Value): (k: SortKey)
    ensures k.Last? <==> v.Undefined?
    ensures v.Str? ==> k == Text(v.s)
  {
    match v
    case Undefined => Last
    case Null => Text("null")
    case Str(s) => Text(s)
  }
}
