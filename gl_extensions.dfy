/** The GL version and extension registry (GLExtensions_Static.cpp): `Init`
    records the context's version and the set of extensions it reports,
    `Version` and `Supports` answer from what was recorded.

    The GL queries are inputs: GLQueries holds what `glGetIntegerv`,
    `glGetError`, `glGetString` and `glGetStringi` answer. */
module GLExtensions {

  /** What the current context answers to the queries `Init` makes. */
  datatype GLQueries = GLQueries(
    major: int,              // GL_MAJOR_VERSION
    minor: int,              // GL_MINOR_VERSION
    noError: bool,           // glGetError() == GL_NO_ERROR after the two queries
    extensionsString: string, // glGetString(GL_EXTENSIONS), the C string's text before its NUL
    extTotal: int,           // GL_NUM_EXTENSIONS
    indexed: seq<string>)    // glGetStringi(GL_EXTENSIONS, i)

  /** How `Supports` confirms an extension: natively membership is enough;
      a web build also asks the browser to enable it. */
  datatype Build = Native | Web(enableExtension: string -> bool)

  /** 2^32: `s_gl_version` is a `u32`. */
  const U32Modulus: int := 0x1_0000_0000

  /** The version code `InitVersion` stores: `major * 100 + minor * 10`
      (converted to `u32`) when the queries raised no error, else 210. */
  function VersionCode(noError: bool, major: int, minor: int): (v: nat)
    ensures v < U32Modulus
  {
    if noError then (major * 100 + minor * 10) % U32Modulus else 210
  }

  /** For a real version (minor below ten) the code keeps both numbers:
      the hundreds are the major and the tens the minor version, and the
      code is below 300, the legacy extension-string path, exactly when the
      major version is below 3. */
  lemma VersionCodeDigits(major: nat, minor: nat)
    requires minor < 10 && major < 40_000_000
    ensures VersionCode(true, major, minor) / 100 == major
    ensures VersionCode(true, major, minor) % 100 / 10 == minor
    ensures VersionCode(true, major, minor) % 10 == 0
    ensures VersionCode(true, major, minor) < 300 <==> major < 3
  {
  }

  /** An error while querying falls back to OpenGL 2.1. */
  lemma VersionCodeOnError(major: int, minor: int)
    ensures VersionCode(false, major, minor) == 210
    ensures VersionCode(false, major, minor) / 100 == 2 && VersionCode(false, major, minor) % 100 / 10 == 1
  {
  }

  /** The characters `std::istringstream` skips between words. */
  predicate IsSpace(c: char)
  {
    c == ' ' || 9 <= c as int <= 13
  }

  /** A word read by `>>`: at least one character and no white space. */
  ghost predicate IsWord(w: string)
  {
    |w| >= 1 && forall i :: 0 <= i < |w| ==> !IsSpace(w[i])
  }

  /** Splits `s` at white space, `cur` being the word read so far. */
  function SplitFrom(s: string, cur: string): (r: seq<string>)
    requires forall i :: 0 <= i < |cur| ==> !IsSpace(cur[i])
    ensures forall k :: 0 <= k < |r| ==> IsWord(r[k])
    decreases |s|
  {
    if s == [] then (if cur == [] then [] else [cur])
    else if IsSpace(s[0]) then (if cur == [] then SplitFrom(s[1..], []) else [cur] + SplitFrom(s[1..], []))
    else SplitFrom(s[1..], cur + [s[0]])
  }

  /** The words `while (buffer >> tmp)` reads from `s`, in order. */
  function Words(s: string): (r: seq<string>)
    ensures forall k :: 0 <= k < |r| ==> IsWord(r[k])
  {
    SplitFrom(s, [])
  }

  /** Words joined by single spaces, the usual shape of GL_EXTENSIONS. */
  function JoinSpaced(ws: seq<string>): string
  {
    if |ws| == 0 then [] else if |ws| == 1 then ws[0] else ws[0] + [' '] + JoinSpaced(ws[1..])
  }

  lemma {:induction false} SplitWord(w: string, s: string, cur: string)
    requires forall i :: 0 <= i < |cur| ==> !IsSpace(cur[i])
    requires forall i :: 0 <= i < |w| ==> !IsSpace(w[i])
    ensures SplitFrom(w + s, cur) == SplitFrom(s, cur + w)
    decreases |w|
  {
    if w == [] {
      assert w + s == s && cur + w == cur;
    } else {
      var cur' := cur + [w[0]];
      assert forall i :: 0 <= i < |cur'| ==> !IsSpace(cur'[i]);
      assert (w + s)[0] == w[0] && (w + s)[1..] == w[1..] + s;
      assert cur + w == cur' + w[1..];
      SplitWord(w[1..], s, cur');
    }
  }

  /** Reading the words back from a space-joined list gives the list: the
      splitting loses no word, adds none and keeps the order. */
  lemma {:induction false} WordsOfJoin(ws: seq<string>)
    requires forall k :: 0 <= k < |ws| ==> IsWord(ws[k])
    ensures Words(JoinSpaced(ws)) == ws
    decreases |ws|
  {
    if |ws| == 1 {
      SplitWord(ws[0], [], []);
      assert ws[0] + [] == ws[0] && [] + ws[0] == ws[0];
      assert SplitFrom([], ws[0]) == [ws[0]];
    } else if |ws| > 1 {
      var rest := JoinSpaced(ws[1..]);
      assert JoinSpaced(ws) == ws[0] + ([' '] + rest);
      SplitWord(ws[0], [' '] + rest, []);
      assert [] + ws[0] == ws[0];
      assert ([' '] + rest)[0] == ' ' && ([' '] + rest)[1..] == rest;
      assert SplitFrom([' '] + rest, ws[0]) == [ws[0]] + SplitFrom(rest, []);
      WordsOfJoin(ws[1..]);
      assert ws == [ws[0]] + ws[1..];
    }
  }

  /** The names at indices 0 to n - 1. */
  function IndexedNames(names: seq<string>, n: nat): (r: set<string>)
    requires n <= |names|
    ensures forall k :: 0 <= k < n ==> names[k] in r
    ensures forall e :: e in r ==> exists k :: 0 <= k < n && names[k] == e
  {
    if n == 0 then {} else IndexedNames(names, n - 1) + {names[n - 1]}
  }

  /** The set `Init` builds for a version code. */
  function ExpectedExtensions(q: GLQueries, version: int): set<string>
    requires version >= 300 ==> q.extTotal <= |q.indexed|
  {
    if version < 300 then set w | w in Words(q.extensionsString)
    else IndexedNames(q.indexed, if q.extTotal < 0 then 0 else q.extTotal)
  }

  /** No empty name is ever recorded from the extension string, and a
      non-positive count gives no extension at all. */
  lemma ExpectedExtensionsShape(q: GLQueries, version: int)
    requires version >= 300 ==> q.extTotal <= |q.indexed|
    ensures version < 300 ==> forall e :: e in ExpectedExtensions(q, version) ==> IsWord(e)
    ensures version >= 300 && q.extTotal <= 0 ==> ExpectedExtensions(q, version) == {}
  {
  }

  /** `s_gl_version` and `s_extension_list`. */
  class Registry {
    var version: int
    var extensionList: set<string>

    constructor ()
      ensures version == 0 && extensionList == {}
    {
      version := 0;
      extensionList := {};
    }

    /** `Version()` */
    function Version(): int
      reads this
    {
      version
    }

    /** `Supports(name)`: false for a name outside the recorded set; in a
        native build, exactly membership. */
    function Supports(name: string, build: Build): (r: bool)
      reads this
      ensures r ==> name in extensionList
      ensures build.Native? ==> (r <==> name in extensionList)
      ensures build.Web? ==> (r <==> name in extensionList && build.enableExtension(name))
    {
      if name in extensionList then
        match build
        case Native => true
        case Web(enable) => enable(name)
      else false
    }

    /** `InitVersion` followed by the rest of `Init`: records the version,
        empties the set and fills it from the extension string (before
        OpenGL 3.0) or from the indexed list, and reports success. */
    method Init(q: GLQueries) returns (ok: bool)
      requires VersionCode(q.noError, q.major, q.minor) >= 300 ==> q.extTotal <= |q.indexed|
      modifies this
      ensures version == VersionCode(q.noError, q.major, q.minor)
      ensures extensionList == ExpectedExtensions(q, version)
      ensures ok
    {
      version := VersionCode(q.noError, q.major, q.minor);
      extensionList := {};
      if version < 300 {
        var words := Words(q.extensionsString);
        for i := 0 to |words|
          invariant version == VersionCode(q.noError, q.major, q.minor)
          invariant extensionList == set w | w in words[..i]
        {
          assert words[..i + 1] == words[..i] + [words[i]];
          extensionList := extensionList + {words[i]};
        }
        assert words[..|words|] == words;
        assert extensionList == ExpectedExtensions(q, version);
      } else {
        var i := 0;
        while i < q.extTotal
          invariant version == VersionCode(q.noError, q.major, q.minor)
          invariant 0 <= i <= (if q.extTotal < 0 then 0 else q.extTotal)
          invariant extensionList == IndexedNames(q.indexed, i)
        {
          extensionList := extensionList + {q.indexed[i]};
          i := i + 1;
        }
      }
      return true;
    }
  }

  /** After `Init`, `Version` reports the stored code and `Supports` (natively)
      accepts exactly the names of the extension list. */
  method InitThenQuery(reg: Registry, q: GLQueries, name: string) returns (v: int, supported: bool)
    requires VersionCode(q.noError, q.major, q.minor) >= 300 ==> q.extTotal <= |q.indexed|
    modifies reg
    ensures v == VersionCode(q.noError, q.major, q.minor)
    ensures supported <==> name in ExpectedExtensions(q, v)
  {
    var _ := reg.Init(q);
    v := reg.Version();
    supported := reg.Supports(name, Native);
  }
}
