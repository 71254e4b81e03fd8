/**
  The store's native identifier. `ObjectId(text)` accepts a 24-character string of
  hexadecimal digits (12 bytes) in either case and raises `InvalidId` otherwise;
  `str(oid)` renders the 12 bytes back as 24 lower-case hexadecimal digits.
  An identifier is kept here in that canonical textual form.
*/
module ObjectIds {
  import opened Wrappers

  const TextLength := 24

  predicate IsHexDigit(c: char) {
    '0' <= c <= '9' || 'a' <= c <= 'f' || 'A' <= c <= 'F'
  }

  predicate IsLowerHexDigit(c: char) {
    '0' <= c <= '9' || 'a' <= c <= 'f'
  }

  /** The strings `ObjectId(text)` accepts. */
  predicate IsWellFormed(text: string) {
    |text| == TextLength && forall i :: 0 <= i < |text| ==> IsHexDigit(text[i])
  }

  /** The strings `str(oid)` produces. */
  predicate IsCanonical(text: string) {
    |text| == TextLength && forall i :: 0 <= i < |text| ==> IsLowerHexDigit(text[i])
  }

  type ObjectId = text: string | IsCanonical(text) witness "000000000000000000000000"

  function LowerDigit(c: char): (d: char)
    requires IsHexDigit(c)
    ensures IsLowerHexDigit(d)
    ensures IsLowerHexDigit(c) ==> d == c
    ensures 'A' <= c <= 'F' ==> d as int == c as int + 32
  {
    if 'A' <= c <= 'F' then (c as int + ('a' as int - 'A' as int)) as char else c
  }

  /** Parses the user-supplied identifier text; `None` is bson's `InvalidId`. */
  function Parse(text: string): (r: Option<ObjectId>)
    ensures r.Some? <==> IsWellFormed(text)
    ensures r.Some? ==> forall i :: 0 <= i < |text| ==> r.value[i] == LowerDigit(text[i])
  {
    if IsWellFormed(text) then
      Some(seq(|text|, i requires 0 <= i < |text| => LowerDigit(text[i])))
    else
      None
  }

  /** `str(oid)`. */
  function ToString(id: ObjectId): string {
    id
  }

  /** The string form of an identifier is accepted by `Parse` and denotes the same identifier. */
  lemma ParseToString(id: ObjectId)
    ensures Parse(ToString(id)) == Some(id)
  {
    var r := Parse(ToString(id));
    assert r.Some?;
    assert |r.value| == |id|;
    forall i | 0 <= i < |id| ensures r.value[i] == id[i] {
    }
    assert r.value == id;
  }

  /** Two texts denote the same identifier exactly when they agree up to the case of the letters. */
  lemma ParseCaseInsensitive(a: string, b: string)
    requires IsWellFormed(a) && IsWellFormed(b)
    ensures Parse(a) == Parse(b) <==> forall i :: 0 <= i < TextLength ==> LowerDigit(a[i]) == LowerDigit(b[i])
  {
    if forall i :: 0 <= i < TextLength ==> LowerDigit(a[i]) == LowerDigit(b[i]) {
      assert Parse(a).value == Parse(b).value;
    }
  }
}
