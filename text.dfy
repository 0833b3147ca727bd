/** `String.prototype.trim`, which the schemas apply to every string path
    (`trim: true`). */
module Text {

  /** The characters `trim` removes: ECMAScript WhiteSpace (tab, vertical
      tab, form feed, space, no-break space, byte order mark and the Unicode
      space separators) and LineTerminator (LF, CR, U+2028, U+2029). */
  predicate IsSpace(c: char)
  {
    || ('\t' <= c <= '\r')
    || c == ' ' || c == '\U{A0}' || c == '\U{1680}'
    || ('\U{2000}' <= c <= '\U{200A}')
    || c == '\U{2028}' || c == '\U{2029}' || c == '\U{202F}' || c == '\U{205F}'
    || c == '\U{3000}' || c == '\U{FEFF}'
  }

  predicate AllSpace(s: string)
  {
    forall i :: 0 <= i < |s| ==> IsSpace(s[i])
  }

  /** `s` neither starts nor ends with whitespace. */
  predicate Trimmed(s: string)
  {
    s == [] || (!IsSpace(s[0]) && !IsSpace(s[|s| - 1]))
  }

  /** Drops leading whitespace. */
  function TrimStart(s: string): (r: string)
    ensures |r| <= |s|
    ensures r == [] || !IsSpace(r[0])
    decreases |s|
  {
    if |s| > 0 && IsSpace(s[0]) then TrimStart(s[1..]) else s
  }

  /** Drops trailing whitespace. */
  function TrimEnd(s: string): (r: string)
    ensures |r| <= |s|
    ensures r == [] || !IsSpace(r[|r| - 1])
    decreases |s|
  {
    if |s| > 0 && IsSpace(s[|s| - 1]) then TrimEnd(s[..|s| - 1]) else s
  }

  /** What `TrimStart` keeps is a suffix of `s`, and what it drops is all whitespace. */
  lemma {:induction false} TrimStartSuffix(s: string)
    ensures var r := TrimStart(s); r == s[|s| - |r|..] && AllSpace(s[..|s| - |r|])
    decreases |s|
  {
    if |s| > 0 && IsSpace(s[0]) {
      TrimStartSuffix(s[1..]);
    }
  }

  /** What `TrimEnd` keeps is a prefix of `s`, and what it drops is all whitespace. */
  lemma {:induction false} TrimEndPrefix(s: string)
    ensures var r := TrimEnd(s); r == s[..|r|] && AllSpace(s[|r|..])
    decreases |s|
  {
    if |s| > 0 && IsSpace(s[|s| - 1]) {
      var r := TrimEnd(s[..|s| - 1]);
      TrimEndPrefix(s[..|s| - 1]);
      assert s[|r|..] == s[..|s| - 1][|r|..] + [s[|s| - 1]];
    }
  }

  /** `s.trim()`. */
  function Trim(s: string): (r: string)
    ensures Trimmed(r)
    ensures |r| <= |s|
  {
    var t := TrimStart(s);
    TrimEndPrefix(t);
    TrimEnd(t)
  }

  /** How many whitespace characters `trim` cuts off the front of `s`. */
  function LeadingSpaces(s: string): (n: nat)
    ensures n <= |s|
  {
    |s| - |TrimStart(s)|
  }

  /** `s.trim()` is the infix of `s` left once the leading and the trailing
      whitespace are cut off, and it is empty exactly when `s` is blank. */
  lemma {:induction false} TrimSpec(s: string)
    ensures var r, i := Trim(s), LeadingSpaces(s);
      && i + |r| <= |s| && r == s[i..i + |r|]
      && AllSpace(s[..i]) && AllSpace(s[i + |r|..])
      && (i < |s| ==> !IsSpace(s[i]))
      && (r == [] <==> AllSpace(s))
  {
    var t := TrimStart(s);
    var r := TrimEnd(t);
    var i := |s| - |t|;
    TrimStartSuffix(s);
    TrimEndPrefix(t);
    assert t == s[i..];
    assert s[i + |r|..] == t[|r|..];
    if r == [] {
      assert s == s[..i] + t;
      AllSpaceConcat(s[..i], t);
    } else {
      assert s[i] == r[0];
    }
  }

  lemma {:induction false} AllSpaceConcat(a: string, b: string)
    requires AllSpace(a) && AllSpace(b)
    ensures AllSpace(a + b)
  {
  }

  /** Trimming a string that already has no surrounding whitespace keeps it. */
  lemma {:induction false} TrimKeepsTrimmed(s: string)
    requires Trimmed(s)
    ensures Trim(s) == s
  {
    assert TrimStart(s) == s;
    assert TrimEnd(s) == s;
  }

  /** Trimming is idempotent. */
  lemma {:induction false} TrimIdempotent(s: string)
    ensures Trim(Trim(s)) == Trim(s)
  {
    TrimKeepsTrimmed(Trim(s));
  }
}
