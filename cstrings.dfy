/** NUL-terminated character strings: a `std::string` built from a
    `const char*`, and `UTF8ToString` on the JavaScript side, both read the
    characters up to the first NUL. */
module CStrings {

  /** The characters of `s` before its first NUL. */
  function ReadCString(s: string): string
  {
    if s == [] || s[0] == '\0' then [] else [s[0]] + ReadCString(s[1..])
  }

  /** What is read is a prefix of `s` without NUL, and it stops at the
      first NUL when there is one. */
  lemma {:induction false} ReadCStringStops(s: string)
    ensures ReadCString(s) <= s && '\0' !in ReadCString(s)
    ensures |ReadCString(s)| < |s| ==> s[|ReadCString(s)|] == '\0'
    decreases |s|
  {
    if s != [] && s[0] != '\0' {
      ReadCStringStops(s[1..]);
    }
  }

  /** A string without NUL is read back whole. */
  lemma ReadCStringWhole(s: string)
    requires '\0' !in s
    ensures ReadCString(s) == s
  {
    ReadCStringStops(s);
  }

  /** A NUL cuts the string: what follows it is never read. */
  lemma ReadCStringCut(p: string, rest: string)
    requires '\0' !in p
    ensures ReadCString(p + ['\0'] + rest) == p
  {
    var s := p + ['\0'] + rest;
    ReadCStringStops(s);
    assert s[|p|] == '\0';
    assert forall k :: 0 <= k < |p| ==> s[k] == p[k];
  }
}
