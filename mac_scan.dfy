/** The address scan behind both versions of `extractMACAddress`: the
    regular expression of six two-hex-digit octets with a separator between
    each pair. Every match of that pattern is exactly 17 characters long, so
    Go's leftmost-first `FindString` returns the 17-character window at the
    smallest position where the pattern fits. `colonAllowed` selects the
    separator class: `[:_]` when true, `_` alone when false. */
module MacScan {
  import opened Bus
  import opened Text

  const WindowLength := 17

  predicate IsHexDigit(c: char)
  {
    '0' <= c <= '9' || 'a' <= c <= 'f' || 'A' <= c <= 'F'
  }

  predicate IsSeparator(c: char, colonAllowed: bool)
  {
    c == '_' || (colonAllowed && c == ':')
  }

  /** What the pattern demands at offset `k` of a window: a separator at
      offsets 2, 5, 8, 11 and 14, a hex digit everywhere else. */
  predicate FitsAt(c: char, k: int, colonAllowed: bool)
  {
    if k % 3 == 2 then IsSeparator(c, colonAllowed) else IsHexDigit(c)
  }

  /** A 17-character text the pattern matches in full. */
  predicate IsWindow(w: string, colonAllowed: bool)
  {
    |w| == WindowLength && forall k :: 0 <= k < WindowLength ==> FitsAt(w[k], k, colonAllowed)
  }

  /** The pattern matches the 17 characters of `s` starting at `i`. */
  predicate MatchesAt(s: string, i: int, colonAllowed: bool)
  {
    0 <= i && i + WindowLength <= |s| && IsWindow(s[i..i + WindowLength], colonAllowed)
  }

  /** `i` is the position `FindString` reports. */
  predicate IsLeftmostMatch(s: string, i: int, colonAllowed: bool)
  {
    MatchesAt(s, i, colonAllowed) && forall j :: 0 <= j < i ==> !MatchesAt(s, j, colonAllowed)
  }

  /** A MAC address in display form: six hex pairs joined by ':'. */
  predicate IsColonForm(w: string)
  {
    |w| == WindowLength &&
    forall k :: 0 <= k < WindowLength ==> (if k % 3 == 2 then w[k] == ':' else IsHexDigit(w[k]))
  }

  /** Turning the separators of a matched window into ':' gives the
      display form, with every hex digit kept as it was (case included). */
  lemma NormalizedWindow(w: string, colonAllowed: bool)
    requires IsWindow(w, colonAllowed)
    ensures IsColonForm(ReplaceAll(w, '_', ':'))
    ensures forall k :: 0 <= k < WindowLength && k % 3 != 2 ==> ReplaceAll(w, '_', ':')[k] == w[k]
  {
    var r := ReplaceAll(w, '_', ':');
    forall k | 0 <= k < WindowLength ensures if k % 3 == 2 then r[k] == ':' else IsHexDigit(r[k]) && r[k] == w[k] {
      assert FitsAt(w[k], k, colonAllowed);
    }
  }

  /** The first match at or after `from`. */
  function FirstMatch(s: string, from: nat, colonAllowed: bool): (r: Option<nat>)
    ensures r.Some? ==> from <= r.value && MatchesAt(s, r.value, colonAllowed)
    ensures r.Some? ==> forall j :: from <= j < r.value ==> !MatchesAt(s, j, colonAllowed)
    ensures r.None? ==> forall j :: from <= j ==> !MatchesAt(s, j, colonAllowed)
    decreases |s| - from
  {
    if from + WindowLength > |s| then None
    else if MatchesAt(s, from, colonAllowed) then Some(from)
    else FirstMatch(s, from + 1, colonAllowed)
  }

  /** The scan: the leftmost match with '_' turned into ':', or "Unknown". */
  function Extract(s: string, colonAllowed: bool): (r: string)
    ensures r == "Unknown" <==> forall i :: !MatchesAt(s, i, colonAllowed)
    ensures r != "Unknown" ==> IsColonForm(r)
    ensures r != "Unknown" ==> exists i :: IsLeftmostMatch(s, i, colonAllowed) &&
                                           r == ReplaceAll(s[i..i + WindowLength], '_', ':')
  {
    match FirstMatch(s, 0, colonAllowed)
    case None => "Unknown"
    case Some(i) =>
      var r := ReplaceAll(s[i..i + WindowLength], '_', ':');
      NormalizedWindow(s[i..i + WindowLength], colonAllowed);
      assert IsLeftmostMatch(s, i, colonAllowed);
      assert |r| != |"Unknown"|;
      r
  }

  /** Extract returns the leftmost match whenever there is one. */
  lemma ExtractAtLeftmost(s: string, i: int, colonAllowed: bool)
    requires IsLeftmostMatch(s, i, colonAllowed)
    ensures Extract(s, colonAllowed) == ReplaceAll(s[i..i + WindowLength], '_', ':')
  {
  }

  /** A display-form address matches at its start under either pattern's
      colon setting that allows colons. */
  lemma ColonFormMatches(w: string)
    requires IsColonForm(w)
    ensures IsLeftmostMatch(w, 0, true)
    ensures ReplaceAll(w, '_', ':') == w
  {
    assert w[0..WindowLength] == w;
    forall k | 0 <= k < WindowLength ensures FitsAt(w[k], k, true) {
    }
  }

  /** Extracting from an extracted address changes nothing. */
  lemma ExtractIdempotent(s: string)
    ensures Extract(Extract(s, true), true) == Extract(s, true)
  {
    var r := Extract(s, true);
    if r == "Unknown" {
      assert forall i :: !MatchesAt(r, i, true);
    } else {
      ColonFormMatches(r);
      ExtractAtLeftmost(r, 0, true);
      assert r[0..WindowLength] == r;
    }
  }

  /** Under the underscore-only pattern an extracted address is never
      found again: its separators are all ':'. */
  lemma UnderscoreOnlyRejectsOwnOutput(s: string)
    ensures Extract(Extract(s, false), false) == "Unknown"
  {
    var r := Extract(s, false);
    forall i | 0 <= i && i + WindowLength <= |r| ensures !MatchesAt(r, i, false) {
      assert i == 0 && r[i..i + WindowLength] == r;
      assert !FitsAt(r[2], 2, false);
    }
  }

  /** Two texts that differ only in which separator stands where. */
  predicate SameUpToSeparators(s: string, t: string)
  {
    |s| == |t| &&
    forall k :: 0 <= k < |s| ==> s[k] == t[k] || (IsSeparator(s[k], true) && IsSeparator(t[k], true))
  }

  /** Under the `[:_]` pattern the separator a text uses does not matter:
      "AA_BB_CC_DD_EE_FF" and "AA:BB:CC:DD:EE:FF" give the same address. */
  lemma ExtractIgnoresSeparatorChoice(s: string, t: string)
    requires SameUpToSeparators(s, t)
    ensures Extract(s, true) == Extract(t, true)
  {
    forall i | 0 <= i && i + WindowLength <= |s| ensures MatchesAt(s, i, true) <==> MatchesAt(t, i, true) {
      var ws, wt := s[i..i + WindowLength], t[i..i + WindowLength];
      forall k | 0 <= k < WindowLength ensures FitsAt(ws[k], k, true) <==> FitsAt(wt[k], k, true) {
        assert ws[k] == s[i + k] && wt[k] == t[i + k];
      }
    }
    if Extract(s, true) != "Unknown" {
      var i :| IsLeftmostMatch(s, i, true);
      assert IsLeftmostMatch(t, i, true);
      ExtractAtLeftmost(s, i, true);
      ExtractAtLeftmost(t, i, true);
      var a := ReplaceAll(s[i..i + WindowLength], '_', ':');
      var b := ReplaceAll(t[i..i + WindowLength], '_', ':');
      var ws, wt := s[i..i + WindowLength], t[i..i + WindowLength];
      forall k | 0 <= k < WindowLength ensures a[k] == b[k] {
        assert ws[k] == s[i + k] && wt[k] == t[i + k];
        assert FitsAt(ws[k], k, true) && FitsAt(wt[k], k, true);
      }
    }
  }

  /** The colon form and the underscore form of one text give one address. */
  lemma ExtractSameForBothForms(s: string)
    ensures Extract(ReplaceAll(s, ':', '_'), true) == Extract(s, true)
    ensures Extract(ReplaceAll(s, '_', ':'), true) == Extract(s, true)
  {
    ExtractIgnoresSeparatorChoice(ReplaceAll(s, ':', '_'), s);
    ExtractIgnoresSeparatorChoice(ReplaceAll(s, '_', ':'), s);
  }

  /** Where a text has no ':', the two patterns find the same address. */
  lemma PatternsAgreeWithoutColons(s: string)
    requires ':' !in s
    ensures Extract(s, false) == Extract(s, true)
  {
    forall i | 0 <= i && i + WindowLength <= |s| ensures MatchesAt(s, i, false) <==> MatchesAt(s, i, true) {
      var w := s[i..i + WindowLength];
      forall k | 0 <= k < WindowLength ensures FitsAt(w[k], k, false) <==> FitsAt(w[k], k, true) {
        assert w[k] == s[i + k];
      }
    }
    if Extract(s, true) != "Unknown" {
      var i :| IsLeftmostMatch(s, i, true);
      assert IsLeftmostMatch(s, i, false);
      ExtractAtLeftmost(s, i, true);
      ExtractAtLeftmost(s, i, false);
    }
  }

  /** Without any '_' the underscore-only pattern finds nothing, so a
      colon-separated address comes back as "Unknown". */
  lemma UnderscoreOnlyNeedsUnderscore(s: string)
    requires '_' !in s
    ensures Extract(s, false) == "Unknown"
  {
    forall i | 0 <= i && i + WindowLength <= |s| ensures !MatchesAt(s, i, false) {
      var w := s[i..i + WindowLength];
      assert w[2] == s[i + 2] && w[2] in s;
      assert !FitsAt(w[2], 2, false);
    }
  }
}
