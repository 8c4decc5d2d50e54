/** String operations used by both the browser script and the Python bridge. */
module Text {

  /** `s.startsWith(prefix)` in JavaScript, `s.startswith(prefix)` in Python. */
  predicate StartsWith(s: string, prefix: string)
  {
    |prefix| <= |s| && s[..|prefix|] == prefix
  }

  /** `s.includes(sub)` in JavaScript, `sub in s` in Python. */
  function Contains(s: string, sub: string): bool
    decreases |s|
  {
    StartsWith(s, sub) || (|s| > 0 && Contains(s[1..], sub))
  }

  /** `sub` occurs in `s` starting at position `i`. */
  ghost predicate OccursAt(s: string, sub: string, i: int)
  {
    0 <= i && i + |sub| <= |s| && s[i..i + |sub|] == sub
  }

  /** An occurrence at position `i` is found by the scan. */
  lemma {:induction false} ContainsFromOccurs(s: string, sub: string, i: nat)
    requires OccursAt(s, sub, i)
    ensures Contains(s, sub)
    decreases i
  {
    if i > 0 {
      assert s[1..][i - 1..i - 1 + |sub|] == s[i..i + |sub|];
      ContainsFromOccurs(s[1..], sub, i - 1);
    }
  }

  /** A successful scan yields the position of an occurrence. */
  lemma {:induction false} OccursFromContains(s: string, sub: string) returns (i: nat)
    requires Contains(s, sub)
    ensures OccursAt(s, sub, i)
    decreases |s|
  {
    if StartsWith(s, sub) {
      i := 0;
    } else {
      var j := OccursFromContains(s[1..], sub);
      assert s[1..][j..j + |sub|] == s[j + 1..j + 1 + |sub|];
      i := j + 1;
    }
  }

  /** The scanning definition of `Contains` agrees with "some occurrence exists". */
  lemma ContainsIffOccurs(s: string, sub: string)
    ensures Contains(s, sub) <==> exists i :: OccursAt(s, sub, i)
  {
    forall i | OccursAt(s, sub, i) ensures Contains(s, sub) {
      ContainsFromOccurs(s, sub, i);
    }
    if Contains(s, sub) {
      var i := OccursFromContains(s, sub);
    }
  }

  /** A string cannot contain a substring one of whose characters it lacks. */
  lemma {:induction false} LacksChar(s: string, sub: string, j: nat)
    requires j < |sub| && sub[j] !in s
    ensures !Contains(s, sub)
    decreases |s|
  {
    if |sub| <= |s| {
      assert s[..|sub|][j] == s[j] && s[j] in s;
    }
    if |s| > 0 {
      assert forall c :: c in s[1..] ==> c in s;
      LacksChar(s[1..], sub, j);
    }
  }

  /** Drops the leading characters that satisfy `space`. */
  function TrimLeft(s: string, space: char -> bool): (r: string)
    ensures |r| <= |s| && r == s[|s| - |r|..]
    ensures forall k :: 0 <= k < |s| - |r| ==> space(s[k])
    ensures r != [] ==> !space(r[0])
    decreases |s|
  {
    if s != [] && space(s[0]) then TrimLeft(s[1..], space) else s
  }

  /** Drops the trailing characters that satisfy `space`. */
  function TrimRight(s: string, space: char -> bool): (r: string)
    ensures |r| <= |s| && r == s[..|r|]
    ensures forall k :: |r| <= k < |s| ==> space(s[k])
    ensures r != [] ==> !space(r[|r| - 1])
    decreases |s|
  {
    if s != [] && space(s[|s| - 1]) then TrimRight(s[..|s| - 1], space) else s
  }

  /** Drops leading and trailing characters that satisfy `space`. */
  function Trim(s: string, space: char -> bool): (r: string)
    ensures r == [] <==> forall k :: 0 <= k < |s| ==> space(s[k])
    ensures r != [] ==> !space(r[0]) && !space(r[|r| - 1])
    ensures exists i :: TrimmedAt(s, r, i, space)
  {
    TrimPiece(s, space);
    TrimBlank(s, TrimRight(TrimLeft(s, space), space), |s| - |TrimLeft(s, space)|, space);
    TrimRight(TrimLeft(s, space), space)
  }

  /** The two passes of `Trim` keep one piece of `s`, with only spaces around it. */
  lemma TrimPiece(s: string, space: char -> bool)
    ensures TrimmedAt(s, TrimRight(TrimLeft(s, space), space), |s| - |TrimLeft(s, space)|, space)
  {
    var left := TrimLeft(s, space);
    var r := TrimRight(left, space);
    var i := |s| - |left|;
    KeptPiece(s, left, r, i);
    SpacesAfter(s, left, r, i, space);
  }

  /** A piece with only spaces around it, and no space at its ends, is empty exactly when
      the whole text is spaces. */
  lemma TrimBlank(s: string, r: string, i: int, space: char -> bool)
    requires TrimmedAt(s, r, i, space) && (r != [] ==> !space(r[0]))
    ensures r == [] <==> forall k :: 0 <= k < |s| ==> space(s[k])
  {
    if r != [] {
      assert s[i] == r[0];
    }
  }

  lemma KeptPiece(s: string, left: string, r: string, i: nat)
    requires i <= |s| && left == s[i..] && |r| <= |left| && r == left[..|r|]
    ensures r == s[i..i + |r|]
  {
  }

  lemma SpacesAfter(s: string, left: string, r: string, i: nat, space: char -> bool)
    requires i <= |s| && left == s[i..] && |r| <= |left|
    requires forall k :: |r| <= k < |left| ==> space(left[k])
    ensures forall k :: i + |r| <= k < |s| ==> space(s[k])
  {
    forall k | i + |r| <= k < |s| ensures space(s[k]) {
      assert s[k] == left[k - i];
    }
  }

  /** `r` is the piece of `s` starting at `i`, and only characters satisfying `space` lie
      before and after it. */
  ghost predicate TrimmedAt(s: string, r: string, i: int, space: char -> bool)
  {
    0 <= i <= |s| - |r| && r == s[i..i + |r|]
    && (forall k :: 0 <= k < i ==> space(s[k]))
    && (forall k :: i + |r| <= k < |s| ==> space(s[k]))
  }

  /** The characters String.prototype.trim removes: WhiteSpace and LineTerminator of ECMAScript. */
  predicate JsSpace(c: char)
  {
    c == '\t' || c == '\n' || c == '\U{B}' || c == '\U{C}' || c == '\r' || c == ' '
    || c == '\U{A0}' || c == '\U{1680}' || ('\U{2000}' <= c <= '\U{200A}')
    || c == '\U{2028}' || c == '\U{2029}' || c == '\U{202F}' || c == '\U{205F}'
    || c == '\U{3000}' || c == '\U{FEFF}'
  }

  /** The characters Python's str.strip() removes (those for which str.isspace() holds). */
  predicate PySpace(c: char)
  {
    ('\t' <= c <= '\r') || ('\U{1C}' <= c <= '\U{1F}') || c == ' ' || c == '\U{85}'
    || c == '\U{A0}' || c == '\U{1680}' || ('\U{2000}' <= c <= '\U{200A}')
    || c == '\U{2028}' || c == '\U{2029}' || c == '\U{202F}' || c == '\U{205F}'
    || c == '\U{3000}'
  }

  /** `s.trim()` in JavaScript. */
  function JsTrim(s: string): string
  {
    Trim(s, JsSpace)
  }

  /** `s.strip()` in Python. */
  function PyStrip(s: string): string
  {
    Trim(s, PySpace)
  }
}
