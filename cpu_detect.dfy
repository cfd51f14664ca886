/** CPU detection for WebAssembly builds (WasmCPUDetect.cpp): `Detect`
    fills in a fixed description of a generic WebAssembly machine plus the
    WebAssembly features the host supports, and `Summarize` turns it into
    the line shown to the user.

    The host's answers (the number of logical cores in the web build, and
    `WasmEnv_SupportsFeature` for each feature) are inputs. */
module CPUDetect {
  import opened Wrappers

  datatype CPUVendor = Intel | AMD | ARM | Other

  /** The build `Detect` was compiled for; the web build asks the browser
      for its number of logical cores. */
  datatype Build = Native | Web(logicalCores: int)

  /** `WasmEnv_SupportsFeature` for bulk memory, fixed-width SIMD and tail
      calls. */
  datatype WasmFeatures = WasmFeatures(bulkMemory: bool, simd: bool, tailCall: bool)

  const GenericBrand: string := "GenericWebAssemblyVM"
  const WebCpuString: string := "WebAssemblyJavaScriptVM"

  const BulkMemoryText: string := ", Bulk Memory"
  const SimdText: string := ", Fixed-Width SIMD"
  const TailCallText: string := ", Tail Call Optimization"

  /** What `Summarize` puts first: the CPU string and, in parentheses, the
      brand. */
  function SummaryPrefix(cpu: string, brand: string): string
  {
    cpu + " (" + brand + ")"
  }

  /** What follows the prefix: one fixed text per supported feature, in the
      order bulk memory, SIMD, tail calls. */
  function FeatureSuffix(f: WasmFeatures): string
  {
    (if f.bulkMemory then BulkMemoryText else "")
    + (if f.simd then SimdText else "")
    + (if f.tailCall then TailCallText else "")
  }

  /** Takes `text` off the front of `s` if it is there. */
  function Take(text: string, s: string): (bool, string)
  {
    if text <= s then (true, s[|text|..]) else (false, s)
  }

  /** Reads the features back from a suffix, None if it is not one. */
  function ParseFeatures(s: string): Option<WasmFeatures>
  {
    var (bulk, s1) := Take(BulkMemoryText, s);
    var (simd, s2) := Take(SimdText, s1);
    var (tail, s3) := Take(TailCallText, s2);
    if s3 == [] then Some(WasmFeatures(bulk, simd, tail)) else None
  }

  lemma {:induction false} DropPrefix(p: string, rest: string)
    ensures p <= p + rest && (p + rest)[|p|..] == rest
  {
  }

  lemma AppendAssoc(p: string, a: string, b: string, c: string)
    ensures p + a + b + c == p + (a + b + c)
  {
  }

  /** A text is taken back off exactly when it was put in front of a rest
      that differs from it at its third character. */
  lemma TakeText(text: string, present: bool, rest: string)
    requires |text| >= 3
    requires rest == [] || (|rest| >= 3 && rest[2] != text[2])
    ensures Take(text, (if present then text else "") + rest) == (present, rest)
  {
    if present {
      DropPrefix(text, rest);
    } else {
      assert "" + rest == rest;
    }
  }

  /** The suffix names exactly the supported features: reading it back gives
      the three flags, so each text appears precisely when its flag is set,
      and no features at all leave the suffix empty. */
  lemma FeatureSuffixRoundTrip(f: WasmFeatures)
    ensures ParseFeatures(FeatureSuffix(f)) == Some(f)
    ensures FeatureSuffix(f) == [] <==> !f.bulkMemory && !f.simd && !f.tailCall
  {
    var t := if f.tailCall then TailCallText else "";
    TakeText(TailCallText, f.tailCall, []);
    assert t + [] == t;
    assert t == [] || t[2] == 'T';
    TakeText(SimdText, f.simd, t);
    var s2 := (if f.simd then SimdText else "") + t;
    assert s2 == [] || s2[2] == 'F' || s2[2] == 'T';
    TakeText(BulkMemoryText, f.bulkMemory, s2);
    assert FeatureSuffix(f) == (if f.bulkMemory then BulkMemoryText else "") + s2;
  }

  /** Distinct feature sets give distinct summaries. */
  lemma SummaryInjective(cpu: string, brand: string, f: WasmFeatures, g: WasmFeatures)
    requires SummaryPrefix(cpu, brand) + FeatureSuffix(f) == SummaryPrefix(cpu, brand) + FeatureSuffix(g)
    ensures f == g
  {
    DropPrefix(SummaryPrefix(cpu, brand), FeatureSuffix(f));
    DropPrefix(SummaryPrefix(cpu, brand), FeatureSuffix(g));
    FeatureSuffixRoundTrip(f);
    FeatureSuffixRoundTrip(g);
  }

  /** The fields of `CPUInfo` that the WebAssembly detection sets. */
  class CPUInfo {
    var vendor: CPUVendor
    var numCores: int
    var logicalCpuCount: int
    var brandString: string
    var cpuString: string
    var bBulkMem: bool
    var bFWSIMD: bool
    var bTailCall: bool

    /** The state `Detect` leaves for a build and a host. */
    ghost predicate Detected(build: Build, features: WasmFeatures)
      reads this
    {
      && vendor == Other && numCores == 1 && brandString == GenericBrand
      && (build.Native? ==> logicalCpuCount == 1 && cpuString == brandString)
      && (build.Web? ==> logicalCpuCount == build.logicalCores && cpuString == WebCpuString)
      && bBulkMem == features.bulkMemory && bFWSIMD == features.simd && bTailCall == features.tailCall
    }

    /** `CPUInfo()`: runs the detection. */
    constructor (build: Build, features: WasmFeatures)
      ensures Detected(build, features)
    {
      new;
      Detect(build, features);
    }

    /** `Detect`: a generic single-core machine of vendor Other with the
        generic brand; natively one logical CPU named by the brand, on the
        web the browser's count and the JavaScript VM's name; and the three
        feature flags as the host reports them. */
    method Detect(build: Build, features: WasmFeatures)
      modifies this
      ensures Detected(build, features)
    {
      vendor := Other;
      numCores := 1;
      brandString := GenericBrand;
      if build.Web? {
        logicalCpuCount := build.logicalCores;
        cpuString := WebCpuString;
      } else {
        logicalCpuCount := 1;
        cpuString := brandString;
      }
      bBulkMem := features.bulkMemory;
      bFWSIMD := features.simd;
      bTailCall := features.tailCall;
    }

    function Features(): WasmFeatures
      reads this
    {
      WasmFeatures(bBulkMem, bFWSIMD, bTailCall)
    }

    /** `Summarize`: builds the line with successive appends; it is the
        prefix followed by the feature texts, and the feature flags can be
        read back from it. */
    method Summarize() returns (sum: string)
      ensures sum == SummaryPrefix(cpuString, brandString) + FeatureSuffix(Features())
      ensures ParseFeatures(sum[|SummaryPrefix(cpuString, brandString)|..]) == Some(Features())
    {
      sum := cpuString;
      sum := sum + " (";
      sum := sum + brandString;
      sum := sum + ")";
      ghost var prefix := sum;
      ghost var bulk := if bBulkMem then BulkMemoryText else "";
      ghost var simd := if bFWSIMD then SimdText else "";
      ghost var tail := if bTailCall then TailCallText else "";
      if bBulkMem {
        sum := sum + BulkMemoryText;
      } else {
        assert sum == sum + bulk;
      }
      if bFWSIMD {
        sum := sum + SimdText;
      } else {
        assert sum == sum + simd;
      }
      if bTailCall {
        sum := sum + TailCallText;
      } else {
        assert sum == sum + tail;
      }
      assert sum == prefix + bulk + simd + tail;
      AppendAssoc(prefix, bulk, simd, tail);
      DropPrefix(prefix, FeatureSuffix(Features()));
      FeatureSuffixRoundTrip(Features());
    }
  }

  /** The summaries of the two builds with no features: nothing but the
      prefix. */
  method SummaryWithoutFeatures(build: Build) returns (sum: string)
    ensures build.Native? ==> sum == SummaryPrefix(GenericBrand, GenericBrand)
    ensures build.Web? ==> sum == SummaryPrefix(WebCpuString, GenericBrand)
  {
    var info := new CPUInfo(build, WasmFeatures(false, false, false));
    sum := info.Summarize();
  }
}
