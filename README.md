# Dolphin web-port helpers, modelled in Dafny

This project models the small self-contained pieces of logic in the
WebAssembly port of the Dolphin emulator:

- **VarInt** (`varint.dfy`): `Common::EncodeVarInt`, the unsigned and signed
  LEB128 encoder of section 7.6 ("Variable Length Data") of the DWARF
  Debugging Information Format, Version 4. It is a do-while loop that appends
  bytes to the caller's container (`Bytes.ByteVector`). Reference readers
  (`DecodeUnsigned`, `DecodeSigned`) are its partner. With them the model
  proves the round trips, the framing by continuation bits, minimality and
  the length bound.
- **NativeInput** (`native_input.dfy`): the browser object
  `BrowserNativeInput`. It covers the one-target setup and remove lifecycle,
  the 256 key-state slots (0 up, 1 down, -1 already reported), the key,
  mouse and wheel handlers, and the query. The query copies out only
  unreported slots, marks every slot reported and zeroes the axes.
- **KeyboardMouse** (`keyboard_mouse.dfy`): the emulator side. It covers:
  - the "at most one device" flag, tied by an invariant to the browser's
    registered target;
  - the inputs a device creates;
  - the decoding of the button mask;
  - the input names. `Decimal` (`decimal.dfy`) models `std::to_string` with
    a reader as its partner.
- **GLExtensions** (`gl_extensions.dfy`): the version code. It also covers
  the extension set, built from the white-space separated string before
  OpenGL 3.0 and from the indexed list after, and `Supports`.
- **HttpRequest** (`http_request.dfy`) and **WebAdapter** (`web_adapter.dfy`):
  - the curl header lines and the flattened `{name, value, ..., 0}` header
    pack. The JavaScript loop that reads the pack back is its partner, and
    the two form a round trip;
  - the write and progress callbacks;
  - the status filter both builds share;
  - `FetchSync`'s result codes;
  - the one-shot pseudo-signal handler table;
  - the cached user agent.
- **CPUDetect** (`cpu_detect.dfy`): `CPUInfo::Detect` and
  `CPUInfo::Summarize`. A parser of the feature suffix is the summary's
  partner.
- **ConsoleListener** (`console_listener.dfy`): the colour a log level is
  shown in, and the single console call `Log` makes.

The model treats host services as inputs: the GL queries, the
XMLHttpRequest's behaviour, curl's transfer, the browser's core count and
feature support, and the navigator's user agent. `Wrappers`
(`wrappers.dfy`) holds the Option, Result and Outcome types for the error
paths (a thrown JavaScript error, a `std::nullopt`, a -1 status).

## Model

| member | source | states |
|---|---|---|
| Bytes.ByteVector.PushBack | Source/Core/Common/VarInt.h:31 | `push_back` appends one byte at the end and changes nothing before it |
| Bytes.ByteVector.Append | Source/Core/Common/HttpRequest.cpp:233 | `insert(end(), ...)` appends the bytes at the end, in order |
| VarInt.UnsignedLeb | Source/Core/Common/VarInt.h:26-31 | the unsigned bytes are framed: bit 7 is set on every byte but the last, and clear on the last |
| VarInt.SignedLeb | Source/Core/Common/VarInt.h:28-31 | the signed bytes are framed, and bit 6 of the last byte is set exactly when the value is negative |
| VarInt.EncodingStep | Source/Core/Common/VarInt.h:23-31 | one loop round: the low seven bits, with bit 7 set exactly when the stop test fails, followed by the encoding of the value shifted right by 7 |
| VarInt.EncodeVarInt | Source/Core/Common/VarInt.h:14-33 | the container ends up as its old contents followed by the encoding; nothing already there is changed |
| VarInt.EncodingFramed | Source/Core/Common/VarInt.h:21-32 | at least one byte is appended; every appended byte but the last has bit 7 set, and the last has it clear |
| VarInt.UnsignedRoundTrip | Source/Core/Common/VarInt.h:23-27 | reading the appended bytes as little-endian base-128 digits, whatever follows them, gives back the value and consumes exactly those bytes |
| VarInt.SignedRoundTrip | Source/Core/Common/VarInt.h:18-29 | the same reading, sign-extended from bit 6 of the last byte, gives back any signed value and consumes exactly the appended bytes |
| VarInt.SignExtension | Source/Core/Common/VarInt.h:28-29 | the signed reading is the unsigned reading minus 128^n exactly when bit 6 of the final byte is set |
| VarInt.UnsignedMinimal | Source/Core/Common/VarInt.h:26-27 | zero encodes as the single byte 0x00, exactly zero does, and a longer encoding never ends in 0x00 |
| VarInt.UnsignedLength | Source/Core/Common/VarInt.h:21-27 | the unsigned encoding fits in k bytes exactly when the value is below 128^k |
| VarInt.SignedMinimal | Source/Core/Common/VarInt.h:28-29 | the signed loop stops as early as possible: the last byte is never a bare sign extension of the one before |
| VarInt.Examples | Source/Core/Common/VarInt.h:18-31 | worked encodings: 0 is 0x00, -1 is 0x7f, 64 takes two bytes, 128 is 0x80 0x01, and the DWARF examples |
| NativeInput.Deliver | Source/Core/InputCommon/ControllerInterface/HTML5/HTML5NativeInput.js:162-171 | the keyboard array after a query keeps its 256 slots; each slot whose key state is not negative holds that state, and each slot whose state is negative keeps its old value |
| NativeInput.DeliverReportedIsIdentity | Source/Core/InputCommon/ControllerInterface/HTML5/HTML5NativeInput.js:162-171 | once every slot is marked reported, a query writes nothing, so a second query with no event in between leaves the array as it was |
| NativeInput.DeliverIdempotent | Source/Core/InputCommon/ControllerInterface/HTML5/HTML5NativeInput.js:162-171 | delivering the same states twice is the same as delivering them once |
| NativeInput.Sign | Source/Core/InputCommon/ControllerInterface/HTML5/HTML5NativeInput.js:112 | `Math.sign` is -1, 0 or 1, positive exactly for a positive argument and negative exactly for a negative one |
| NativeInput.BrowserNativeInput.constructor | Source/Core/InputCommon/ControllerInterface/HTML5/HTML5NativeInput.js:8-23 | the object starts with no target, zero buttons and zero axes |
| NativeInput.BrowserNativeInput.Setup | Source/Core/InputCommon/ControllerInterface/HTML5/HTML5NativeInput.js:32-42 | fails on a second device; fails when no element is found, leaving no target; otherwise registers the target and sets all 256 slots to 0 |
| NativeInput.BrowserNativeInput.Remove | Source/Core/InputCommon/ControllerInterface/HTML5/HTML5NativeInput.js:128-141 | fails when there is no target; otherwise forgets the target, so a later setup succeeds |
| NativeInput.BrowserNativeInput.KeyEvent | Source/Core/InputCommon/ControllerInterface/HTML5/HTML5NativeInput.js:62-70 | keydown sets the key's slot to 1 and keyup sets it to 0; no other slot changes |
| NativeInput.BrowserNativeInput.MouseEvent | Source/Core/InputCommon/ControllerInterface/HTML5/HTML5NativeInput.js:72-108 | a mouse event records the buttons, the normalised cursor and the movement axes; the wheel axis is kept |
| NativeInput.BrowserNativeInput.WheelEvent | Source/Core/InputCommon/ControllerInterface/HTML5/HTML5NativeInput.js:110-116 | a wheel event sets the scroll axis to the sign of the vertical delta, then is handled as a mouse event |
| NativeInput.BrowserNativeInput.GetKeyboardMouseInputState | Source/Core/InputCommon/ControllerInterface/HTML5/HTML5NativeInput.js:145-172 | fails with no target and changes nothing; otherwise returns the cursor, buttons and three axes, zeroes the axes, copies only unreported slots and marks every slot reported |
| Decimal.NatToString | Source/Core/InputCommon/ControllerInterface/HTML5/HTML5KeyboardMouse.cpp:206 | `std::to_string` of a natural number: at least one digit, all digits, no leading zero |
| Decimal.NatToStringRoundTrip | Source/Core/InputCommon/ControllerInterface/HTML5/HTML5KeyboardMouse.cpp:206 | the decimal text reads back as the number it was written from |
| KeyboardMouse.ButtonNameReadsBack | Source/Core/InputCommon/ControllerInterface/HTML5/HTML5KeyboardMouse.cpp:204-207 | a button's name is "Click " followed by the decimal digits of its index, which read back as the index |
| KeyboardMouse.AxisLetterNul | Source/Core/InputCommon/ControllerInterface/HTML5/HTML5KeyboardMouse.cpp:212 | the letter `char('X' + index)` of an 8-bit index is NUL exactly for index 168, where 88 + 168 wraps to 0 |
| KeyboardMouse.AxisAndCursorNames | Source/Core/InputCommon/ControllerInterface/HTML5/HTML5KeyboardMouse.cpp:209-223 | "Axis " plus the letter 'X' + index plus '-' for a negative range and '+' otherwise; "Cursor " plus the letter plus '+' when positive and '-' otherwise; when the `char` cast wraps the letter to NUL (index 168) the `std::string` stops there, at "Axis " or "Cursor "; indices 0, 1, 2 give X, Y, Z |
| KeyboardMouse.DeviceInputCount | Source/Core/InputCommon/ControllerInterface/HTML5/HTML5KeyboardMouse.cpp:145-174 | a device has one input per key-table row and 3 + 4 + 4 + 2 more, and those follow the keys |
| KeyboardMouse.KeyInputsNamedByTable | Source/Core/InputCommon/ControllerInterface/HTML5/HTML5KeyboardMouse.cpp:150-151 | input i is key i, named by row i of the table, and every key code indexes the 256-slot keyboard state |
| KeyboardMouse.OtherInputsListed | Source/Core/InputCommon/ControllerInterface/HTML5/HTML5KeyboardMouse.cpp:153-173 | after the keys come buttons 0 to 2, the cursor halves X-, X+, Y-, Y+, the cursor axes at -0.04 and +0.04, and the wheel at -1 and +1 |
| KeyboardMouse.ButtonNames | Source/Core/InputCommon/ControllerInterface/HTML5/HTML5KeyboardMouse.cpp:204-207 | the three buttons are named "Click 0", "Click 1" and "Click 2" |
| KeyboardMouse.CursorNames | Source/Core/InputCommon/ControllerInterface/HTML5/HTML5KeyboardMouse.cpp:217-223 | the cursor halves are named "Cursor X-", "Cursor X+", "Cursor Y-" and "Cursor Y+" |
| KeyboardMouse.AxisNames | Source/Core/InputCommon/ControllerInterface/HTML5/HTML5KeyboardMouse.cpp:209-215 | the axes are named "Axis X-" to "Axis Z+" by index and the sign of their range |
| KeyboardMouse.OtherInputNames | Source/Core/InputCommon/ControllerInterface/HTML5/HTML5KeyboardMouse.cpp:153-173 | the thirteen inputs after the keys are all nameable, and their names, in order, are listed |
| KeyboardMouse.DecodeButtonMask | Source/Core/InputCommon/ControllerInterface/HTML5/HTML5KeyboardMouse.cpp:183-185 | bits 0, 1 and 2 of a mask recover the left, right and middle buttons, whatever the higher bits hold |
| KeyboardMouse.KeyboardMouse.constructor | Source/Core/InputCommon/ControllerInterface/HTML5/HTML5KeyboardMouse.cpp:145-174 | the inputs are the keys in table order, then the buttons, cursor halves, cursor axes and wheel axes |
| KeyboardMouse.KeyboardMouse.UpdateInput | Source/Core/InputCommon/ControllerInterface/HTML5/HTML5KeyboardMouse.cpp:176-186 | the query fills the cursor, axes and keyboard state; left, right and middle click become bits 0, 1 and 2 of the buttons; the browser's axes are zeroed and its keys marked reported, its buttons and cursor kept; a failed query is passed on and changes nothing in the browser or in the device's clicks, cursor, axes and keyboard |
| KeyboardMouse.ControllerInterface.constructor | Source/Core/InputCommon/ControllerInterface/HTML5/HTML5KeyboardMouse.cpp:121 | the flag starts false, with no device |
| KeyboardMouse.ControllerInterface.SetupKeyboardMouse | Source/Core/InputCommon/ControllerInterface/HTML5/HTML5KeyboardMouse.cpp:130-137 | a no-op while the flag is set; otherwise adds one device with the full input list and sets the flag; the second-device error cannot arise; the browser's key slots change only when a device is added, and its mouse state never |
| KeyboardMouse.ControllerInterface.RemoveKeyboardMouse | Source/Core/InputCommon/ControllerInterface/HTML5/HTML5KeyboardMouse.cpp:139-143 | destroying the device removes the browser target and clears the flag; the browser's key slots, mouse axes, buttons and cursor are kept |
| KeyboardMouse.ControllerInterface.UpdateInput | Source/Core/InputCommon/ControllerInterface/HTML5/HTML5KeyboardMouse.cpp:176-186 | while a device is held its query cannot fail, and its clicks and key states are decoded from the browser state; its cursor, axes and inputs are kept; afterwards every browser key slot is reported and the axes are zero; with no device nothing in the browser changes |
| GLExtensions.VersionCode | Source/Core/Common/GL/GLExtensions/GLExtensions_Static.cpp:19-28 | the stored code is a `u32`: major * 100 + minor * 10 with no error, else 210 |
| GLExtensions.VersionCodeDigits | Source/Core/Common/GL/GLExtensions/GLExtensions_Static.cpp:24-25 | the code keeps major and minor as its hundreds and tens digits, and is below 300 exactly for a major version below 3 |
| GLExtensions.VersionCodeOnError | Source/Core/Common/GL/GLExtensions/GLExtensions_Static.cpp:26-27 | a query error falls back to 210, OpenGL 2.1 |
| GLExtensions.SplitFrom | Source/Core/Common/GL/GLExtensions/GLExtensions_Static.cpp:52-53 | every word read by `>>` is non-empty and has no white space |
| GLExtensions.Words | Source/Core/Common/GL/GLExtensions/GLExtensions_Static.cpp:48-53 | the tokens of the extension string are non-empty and contain no white space |
| GLExtensions.WordsOfJoin | Source/Core/Common/GL/GLExtensions/GLExtensions_Static.cpp:46-54 | splitting a space-joined list of words gives back the list, in order |
| GLExtensions.IndexedNames | Source/Core/Common/GL/GLExtensions/GLExtensions_Static.cpp:57-61 | the set holds exactly the names at indices 0 to n - 1 |
| GLExtensions.ExpectedExtensionsShape | Source/Core/Common/GL/GLExtensions/GLExtensions_Static.cpp:46-61 | before 3.0 no empty name is recorded; from 3.0 on, a non-positive count gives an empty set |
| GLExtensions.Registry.constructor | Source/Core/Common/GL/GLExtensions/GLExtensions_Static.cpp:16-17 | the statics start with version 0 and no extension |
| GLExtensions.Registry.Supports | Source/Core/Common/GL/GLExtensions/GLExtensions_Static.cpp:66-79 | false outside the set; natively exactly membership; on the web, membership and the browser enabling the extension |
| GLExtensions.Registry.Init | Source/Core/Common/GL/GLExtensions/GLExtensions_Static.cpp:35-64 | stores the version code, replaces the set by the words of the string (below 300) or the first `ext_total` indexed names, and returns true |
| GLExtensions.InitThenQuery | Source/Core/Common/GL/GLExtensions/GLExtensions_Static.cpp:30-33 | after `Init`, `Version` returns the stored code and `Supports` accepts exactly the recorded names |
| HttpRequest.HeaderLineRoundTrip | Source/Core/Common/HttpRequest.cpp:307-315 | the line is `name:`, `name;` or `name: value` by the value's form, and each form reads back to its header |
| HttpRequest.HeaderLineInjective | Source/Core/Common/HttpRequest.cpp:307-315 | two headers with plain names never share a curl line |
| HttpRequest.BuildHeaderList | Source/Core/Common/HttpRequest.cpp:305-316 | one line per header, in order |
| HttpRequest.CurlWriteCallback | Source/Core/Common/HttpRequest.cpp:229-235 | appends exactly size * nmemb bytes at the end of the buffer and returns that count |
| HttpRequest.CurlProgress | Source/Core/Common/HttpRequest.cpp:125-130 | the result is 0 or 1, and nonzero (abort) exactly when the user callback returns false |
| HttpRequest.Decide | Source/Core/Common/HttpRequest.cpp:270-295 | a transport failure gives no response; `All` returns the body whatever the status; `Ok_Only` returns it only on 200; a returned body is exactly the received bytes |
| HttpRequest.OkOnlyRefinesAll | Source/Core/Common/HttpRequest.cpp:279-295 | `Ok_Only` accepts a subset of what `All` accepts, agrees with it on 200, and rejects every other received status |
| HttpRequest.FetchCurl | Source/Core/Common/HttpRequest.cpp:305-350 | the native fetch passes one line per header, collects every chunk in order, and filters the result as `Decide` does |
| HttpRequest.HeaderPack | Source/Core/Common/HttpRequest.cpp:250-259 | the pack has 2n + 1 entries and ends with a null |
| HttpRequest.HeaderPackShape | Source/Core/Common/HttpRequest.cpp:253-257 | names at even and values at odd positions, a missing value as ""; the only null is the terminator |
| HttpRequest.PackHeaders | Source/Core/Common/HttpRequest.cpp:250-259 | the `push_back` loop and the final null build exactly the pack |
| HttpRequest.HeaderPackRoundTrip | Source/Core/Common/HttpRequest.cpp:250-259 | the JavaScript header loop, run on the pack, sets exactly the (name, value or "") pairs in order, when no string holds a NUL |
| HttpRequest.WebImpl.constructor | Source/Core/Common/HttpRequest.cpp:133-137 | the web timeout is the millisecond count reduced to a `u32` |
| HttpRequest.WebImpl.FetchProgress | Source/Core/Common/HttpRequest.cpp:117-123 | aborts exactly when the user callback returns false; the upload progress passed is the whole payload size, as sent and as total |
| HttpRequest.WebImpl.Fetch | Source/Core/Common/HttpRequest.cpp:244-295 | records the payload size; opens the request through the CORS proxy with the verb, timeout, the packed headers the browser accepts and the payload; fails with the escaping exception exactly when open succeeds and the browser rejects one of the headers; otherwise filters the result as `Decide` does |
| CStrings.ReadCStringStops | Source/Core/Common/WebAdapter.js:69-71 | `UTF8ToString` reads a prefix of the string with no NUL in it, ending at the first NUL when there is one |
| CStrings.ReadCStringWhole | Source/Core/Common/WebAdapter.js:69-71 | a string with no NUL is read back whole |
| CStrings.ReadCStringCut | Source/Core/InputCommon/ControllerInterface/HTML5/HTML5KeyboardMouse.cpp:214 | returning a `char` buffer as a `std::string` keeps only the characters before a NUL, and drops everything after it |
| WebAdapter.AcceptedStops | Source/Core/Common/WebAdapter.js:66-75 | the headers set are a prefix of the calls, none of them one the browser rejects, and the call after them, if any, is the rejected one |
| WebAdapter.AcceptedAll | Source/Core/Common/WebAdapter.js:66-75 | every header is set exactly when the browser rejects none of them |
| WebAdapter.AcceptedUpTo | Source/Core/Common/WebAdapter.js:66-75 | accepted calls followed by nothing or by a rejected call are exactly the ones that complete |
| WebAdapter.SetRequestHeaders | Source/Core/Common/WebAdapter.js:66-75 | the loop stops at the first null entry; even entries are names and each odd entry sets a header under the name before it; a null list sets nothing; the first header `setRequestHeader` rejects ends the loop with that header, and only the headers before it are set |
| WebAdapter.FetchSync | Source/Core/Common/WebAdapter.js:45-104 | the exception of a rejected header escapes exactly when open succeeded and some header is rejected, naming the first such header; otherwise returns -1 with no output exactly when open or send throws, the state is not DONE or the response is null, else the status and the response bytes |
| WebAdapter.AfterCall | Source/Core/Common/WebAdapter.js:107-112 | after `_call` the signal's slot is empty |
| WebAdapter.RegisteredOthers | Source/Core/Common/WebAdapter.js:130-132 | registrations for other signals leave a signal's handler alone |
| WebAdapter.CallIsOneShot | Source/Core/Common/WebAdapter.js:107-112 | raising is one-shot: the slot is then empty even if the handler set itself again, a second raise changes nothing, and other signals keep their handlers |
| WebAdapter.SignalHandlers.constructor | Source/Core/Common/WebAdapter.js:106-123 | the table starts empty |
| WebAdapter.SignalHandlers.SetSignalHandler | Source/Core/Common/WebAdapter.js:130-132 | replaces only the entry of the given signal |
| WebAdapter.SignalHandlers.Call | Source/Core/Common/WebAdapter.js:107-112 | calls the handler if one is set, runs its registrations, then empties the slot |
| WebAdapter.SignalHandlers.RaiseSigint | Source/Core/Common/WebAdapter.js:115-117 | `raise_SIGINT` dispatches signal 2 |
| WebAdapter.SignalHandlers.RaiseSigterm | Source/Core/Common/WebAdapter.js:119-121 | `raise_SIGTERM` dispatches signal 15 |
| WebAdapter.UserAgentFor | Source/Core/Common/WebAdapter.js:19-23 | never empty: the navigator's user agent exactly when running in a browser whose user agent is non-empty, else "Undefined User Agent" |
| WebAdapter.UserAgentCache.GetUserAgent | Source/Core/Common/WebAdapter.js:17-30 | the first call computes and caches the user agent; later calls return the cached value |
| WebAdapter.UserAgentIsCached | Source/Core/Common/WebAdapter.js:18-29 | two calls agree, and agree with the first call's environment |
| CPUDetect.FeatureSuffixRoundTrip | Source/Core/Common/WasmCPUDetect.cpp:52-57 | each feature text appears exactly when its flag is set, in the order bulk memory, SIMD, tail calls; with no flags the suffix is empty |
| CPUDetect.SummaryInjective | Source/Core/Common/WasmCPUDetect.cpp:45-60 | distinct feature sets give distinct summaries |
| CPUDetect.CPUInfo.constructor | Source/Core/Common/WasmCPUDetect.cpp:18-21 | construction runs the detection |
| CPUDetect.CPUInfo.Detect | Source/Core/Common/WasmCPUDetect.cpp:24-42 | vendor Other, one core, the generic brand; natively one logical CPU named by the brand, on the web the browser's count and the JavaScript VM's name; the three flags as the host reports them |
| CPUDetect.CPUInfo.Summarize | Source/Core/Common/WasmCPUDetect.cpp:45-60 | the summary is `cpu (brand)` followed by the feature texts, and the flags can be read back from what follows the prefix |
| CPUDetect.SummaryWithoutFeatures | Source/Core/Common/WasmCPUDetect.cpp:47-59 | with no features the summary is just the prefix, for either build |
| ConsoleListener.Color | Source/Core/Common/Logging/ConsoleListenerEmscripten.cpp:19-37 | the colour is one of black, green, red and orange |
| ConsoleListener.ColorSeparatesLevels | Source/Core/Common/Logging/ConsoleListenerEmscripten.cpp:19-37 | with colour on, NOTICE is green, ERROR red and WARNING orange, each exactly; every other level, and every level with colour off, is black |
| ConsoleListener.ConsoleListener.constructor | Source/Core/Common/Logging/ConsoleListenerEmscripten.cpp:9 | a new listener has colour enabled |
| ConsoleListener.ConsoleListener.Log | Source/Core/Common/Logging/ConsoleListenerEmscripten.cpp:17-40 | exactly one coloured console call, with the text unchanged and the colour of the level |
| ConsoleListener.FreshListenerColors | Source/Core/Common/Logging/ConsoleListenerEmscripten.cpp:9-40 | a fresh listener logs an error in red and a debug message in black |

## Left out

- Floating point. The mouse maths (normalising, clamping and smoothing, HTML5NativeInput.js:72-104) is an input: the values it computes arrive as a `MouseSample`. The `HEAPF32` stores of the query are not rounded to float32. The divisions of `GetState` (HTML5KeyboardMouse.cpp:236-244) are not modelled. `NORM_MOUSE_AXIS_SENSITIVITY` is the real 0.04, not the float nearest to it.
- NativeInput.BrowserNativeInput.KeyEvent: a key code of 256 or more would grow the JavaScript array past the slots the query reads. The model has only the 256 slots, so such an event changes nothing.
- NativeInput.BrowserNativeInput.MouseEvent: events only reach the handlers while listeners are attached, so an event with no target changes nothing. `lastMouseX`/`lastMouseY` belong to the float maths and are not kept.
- KeyboardMouse.KeyboardMouse.constructor: `m_state_in` is uninitialised in C++; the model starts it at zero. The `DOM_VK_*` codes of the key table are the DOM `keyCode` values those constants stand for; emscripten's key_codes.h is not part of this model.
- `KeyboardMouse::GetName` and `GetSource` return constant strings. `Key::GetState` and `Button::GetState` return the state they read. These are not modelled.
- KeyboardMouse.AxisAndCursorNames: the `static char tmpstr[]` buffers are shared between threads; the model has no concurrency.
- GLExtensions.Registry.Init: requires the driver to answer every index below `GL_NUM_EXTENSIONS`. The signed overflow of `major * 100 + minor * 10` is undefined behaviour in C++; the model reduces the result modulo 2^32, as the store to the `u32` would.
- GLExtensions: the GL queries are inputs (`GLQueries`), and on the web `emscripten_webgl_enable_extension` is a function parameter.
- HttpRequest.CurlWriteCallback: requires `size * nmemb` below 2^64. curl guarantees this, so the wrap-around of the `size_t` product is not reached.
- HttpRequest.WebImpl.FetchProgress: requires a callback to be set. Calling an empty `std::function` throws, and the model does not follow the exception. The native build installs its callback only when one is set (HttpRequest.cpp:145-151).
- WebAdapter.FetchSync: the effect of the progress listener's `abort()` is folded into how the `Xhr` input behaved. Which headers the browser rejects is an input (`rejectsHeader`), not the token and value rules of the browser. The output size pointer is the length of `out`. The `progressCb`/`userData` plumbing is not modelled.
- The native `Impl` constructor (curl setup), native `IsValid`, `SetCookies`, `UseIPv4`, `FollowRedirects` and `EscapeComponent` only set curl options or call curl. The curl options set in `Fetch` are left out as well. `HttpRequest::Get` and `Post` forward to `Fetch`; the model's `Fetch` takes their method and payload as parameters.
- CStrings: C strings are modelled as text that is already decoded. `UTF8ToString` decodes UTF-8 and replaces invalid sequences with U+FFFD, and `allocateUTF8` encodes. The model reads characters unchanged, so `HeaderPackRoundTrip` and the user-agent value hold for valid text only; byte-level encoding and decoding are not modelled. Likewise the GL extension string (`std::string tmp(extensions)`) is given as the text before its NUL, and the curl header lines are not cut at a NUL that `c_str()` would stop at: a header holding a NUL reaches curl shortened, which `HeaderLineRoundTrip` does not model.
- The log messages of `Fetch` (`ERROR_LOG_FMT`) are left out. So is the `std::free` of the fetched buffer.
- `WebAdapter_DisplayAlert` and `WebAdapter_LogColored` call the browser. `Log` records its console calls instead of making them.
- CPUDetect: `emscripten_num_logical_cores` and `WasmEnv_SupportsFeature` are inputs. The `strncpy` buffer sizes come from CPUDetect.h, which is not part of this model. The other `CPUInfo` fields are not set by this detection.
- ConsoleListener.Color: the levels are those of `Common::Log::LOG_LEVELS`. Log.h is not part of this model, so only the five levels are listed.
