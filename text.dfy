/** The few functions of Go's `strings` package that the Bluetooth layer
    applies to MAC addresses and action names. Letter case is mapped for
    ASCII only. */
module Text {

  predicate IsLower(c: char) { 'a' <= c <= 'z' }
  predicate IsUpper(c: char) { 'A' <= c <= 'Z' }

  function UpperChar(c: char): (u: char)
    ensures IsLower(c) ==> IsUpper(u) && u as int == c as int - 32
    ensures !IsLower(c) ==> u == c
  {
    if IsLower(c) then (c as int - 32) as char else c
  }

  function LowerChar(c: char): (l: char)
    ensures IsUpper(c) ==> IsLower(l) && l as int == c as int + 32
    ensures !IsUpper(c) ==> l == c
  {
    if IsUpper(c) then (c as int + 32) as char else c
  }

  /** `strings.Replace(s, old, new, -1)` for one-character `old` and `new`:
      every occurrence of `old` becomes `new`, nothing else moves. */
  function ReplaceAll(s: string, from: char, to: char): (r: string)
    ensures |r| == |s|
    ensures forall i :: 0 <= i < |s| ==> r[i] == (if s[i] == from then to else s[i])
    ensures from != to ==> from !in r
  {
    seq(|s|, i requires 0 <= i < |s| => if s[i] == from then to else s[i])
  }

  /** `strings.ToUpper` on ASCII text. */
  function ToUpper(s: string): (r: string)
    ensures |r| == |s|
    ensures forall i :: 0 <= i < |s| ==> r[i] == UpperChar(s[i])
    ensures forall i :: 0 <= i < |r| ==> !IsLower(r[i])
  {
    seq(|s|, i requires 0 <= i < |s| => UpperChar(s[i]))
  }

  /** `strings.ToLower` on ASCII text. */
  function ToLower(s: string): (r: string)
    ensures |r| == |s|
    ensures forall i :: 0 <= i < |s| ==> r[i] == LowerChar(s[i])
    ensures forall i :: 0 <= i < |r| ==> !IsUpper(r[i])
  {
    seq(|s|, i requires 0 <= i < |s| => LowerChar(s[i]))
  }

  /** `unicode.IsSpace` outside ASCII: NEL, no-break space, and the
      other characters of Unicode's White_Space property above 0x7F. */
  predicate IsNonAsciiSpace(c: char)
  {
    var n := c as int;
    n == 0x85 || n == 0xA0 || n == 0x1680 || 0x2000 <= n <= 0x200A
    || n == 0x2028 || n == 0x2029 || n == 0x202F || n == 0x205F || n == 0x3000
  }

  /** Go's `isSeparator` in `strings.Title`: ASCII letters, digits and `_`
      continue a word and every other ASCII character ends one; above ASCII
      only the Unicode spaces end a word. */
  predicate IsWordSeparator(c: char)
  {
    if c as int < 0x80 then !('0' <= c <= '9' || IsLower(c) || IsUpper(c) || c == '_')
    else IsNonAsciiSpace(c)
  }

  /** `strings.Title`: a character that starts the text or follows a
      separator is upper-cased; every other character is kept. */
  function Title(s: string): (r: string)
    ensures |r| == |s|
    ensures |s| > 0 ==> r[0] == UpperChar(s[0])
    ensures forall i :: 0 < i < |s| && IsWordSeparator(s[i - 1]) ==> r[i] == UpperChar(s[i])
    ensures forall i :: 0 < i < |s| && !IsWordSeparator(s[i - 1]) ==> r[i] == s[i]
  {
    seq(|s|, i requires 0 <= i < |s| =>
      if i == 0 || IsWordSeparator(s[i - 1]) then UpperChar(s[i]) else s[i])
  }

  /** Title-casing only changes letter case, so the lower-cased action
      in an error message is the same whether or not it was title-cased. */
  lemma TitleKeepsLowerForm(s: string)
    ensures ToLower(Title(s)) == ToLower(s)
  {
    assert forall c :: LowerChar(UpperChar(c)) == LowerChar(c);
  }

  /** Upper-casing commutes with replacing a non-letter by a character
      that is not a lower-case letter. */
  lemma UpperCommutesWithReplace(s: string, from: char, to: char)
    requires !IsLower(from) && !IsUpper(from) && !IsLower(to)
    ensures ToUpper(ReplaceAll(s, from, to)) == ReplaceAll(ToUpper(s), from, to)
  {
  }
}
