# Vision diffusion service: request validation and mapping

This project models the request handling of the vision diffusion service
(`vision-server/app.py`), a small web service in front of a text-to-image
pipeline, and proves properties of it in Dafny. It covers:

- `_parse_size`, which reads an image size written `WxH`. It lower-cases the
  text, splits it on `x` and requires exactly two pieces that Python's `int()`
  accepts. Both numbers must then lie in 256..`MAX_EDGE`. It raises one of two
  HTTP 400 errors: a format error or a range error.
- The field constraints of the internal `GenerateRequest` and of the
  OpenAI-compatible `OpenAIImageRequest`.
- The part of `openai_image_endpoint` that turns an `OpenAIImageRequest` into
  a `GenerateRequest`. It first rejects any `response_format` other than
  `b64_json`, ignoring case. It then parses the size. Missing steps and
  guidance take the `GenerateRequest` defaults. Prompt, negative prompt and
  seed are copied unchanged. The model stops where `_run_generation` is called.

Everything is pure, so the model is datatypes, functions and lemmas:

- `wrappers.dfy`: module `Wrappers`, with `Option` (Python's `Optional`) and
  `Result` (a value, or a raised error).
- `py_str.dfy`: module `PyStr`, with `str.lower()` over ASCII, `str.split`
  and `str.join` for a one-character separator, and `str.count`.
- `py_int.dfy`: module `PyInt`, with CPython's `int(s)` in base 10 and its
  inverse `str(n)`. `int(s)` accepts surrounding whitespace, one optional
  sign, leading zeros, and single underscores between digits. A literal of
  more than 4300 digits (CPython's default limit on integer string
  conversion) also raises a `ValueError`, with another message, which
  `_parse_size` catches in the same way. The whitespace skipped is the space,
  tab, line feed, vertical tab, form feed and carriage return; the control
  characters 0x1C-0x1F, which `str.strip()` would remove, are refused.
- `vision_app.dfy`: module `VisionApp`, with `ParseSize`, the two request
  records with their validity predicates, the construction of
  `GenerateRequest`, and `MapImageRequest`.

`MAX_EDGE` is read from the environment at start-up. Here it is the
parameter `maxEdge`; `DefaultMaxEdge` is 1024. Because `MAX_EDGE` is itself
read with `int()`, it has at most 4300 digits. `PyInt.Representable` states
that bound, and `VisionApp.ParseSizeRoundTripConfigured` uses it.

When `GenerateRequest(...)` is built with a field that breaks its
constraints, pydantic raises a validation error and not an `HTTPException`.
The model returns it as `ValidationError`, listing the failing fields in
declaration order. Only an empty prompt can cause it here: `OpenAIImageRequest`
puts no length bound on `prompt`, but `GenerateRequest` requires at least one
character.

## Model

| member | source | states |
|---|---|---|
| `VisionApp.ParseSize` | vision-server/app.py:154-167 | on success both dimensions lie in 256..maxEdge; the only errors are the format error and the range error for this maxEdge |
| `VisionApp.ParseSizeSeparatorCount` | vision-server/app.py:154-160 | a size with zero or several separators (`x` and `X` counted together) gives the format error |
| `VisionApp.ParseSizeUpperX` | vision-server/app.py:156 | `a + "X" + b` parses exactly like `a + "x" + b`, because the text is lowered before it is split |
| `VisionApp.ParseSizeNonInteger` | vision-server/app.py:155-162 | if either piece is not an integer, the result is the format error, whatever the other piece is; the format check comes before the range check |
| `VisionApp.ParseSizeIntegers` | vision-server/app.py:156-167 | two integer pieces give `Size(w, h)`, width first, when both lie in 256..maxEdge, and the range error otherwise |
| `VisionApp.ParseSizeRoundTrip` | vision-server/app.py:156-167 | for w and h in 256..maxEdge (within int()'s digit limit), parsing `str(w) + "x" + str(h)` gives back exactly `Size(w, h)` |
| `VisionApp.ParseSizeRoundTripConfigured` | vision-server/app.py:156-167 | the round trip holds for every w and h in 256..maxEdge when maxEdge, like `MAX_EDGE`, is a value that int() can produce |
| `VisionApp.ParseSizeLeadingZeros` | vision-server/app.py:157-160 | leading zeros on the width are accepted, but past int()'s 4300-digit limit the size is a format error even though its value is in range |
| `VisionApp.ParseSizeSurroundingWhitespace` | vision-server/app.py:156-158 | whitespace `int()` skips (space, tab, line feed, vertical tab, form feed, carriage return) around either number is accepted, so `" 768 x 512 "` is 768 by 512 |
| `VisionApp.ParseSizeSeparatorControl` | vision-server/app.py:156-160 | `"\x1c512x512"` is the format error, because `int()` does not skip 0x1C |
| `VisionApp.ParseSizeRoundTripDefault` | vision-server/app.py:18 | with the default `MAX_EDGE` of 1024, `str(w) + "x" + str(h)` parses back to `(w, h)` for every w and h in 256..1024 |
| `VisionApp.DefaultSizeParses` | vision-server/app.py:172 | the default size `"512x512"` parses to 512 by 512 whenever maxEdge is at least 512 |
| `PyInt.ParseInt` | vision-server/app.py:157-158 | `int(s)` in base 10: strip the whitespace it skips, read one optional sign, then digits with single underscores between them, at most 4300 of them; `None` stands for `ValueError` (its properties are the lemmas below) |
| `PyInt.ParseIntToDecimal` | vision-server/app.py:157-158 | `int(str(n)) == n` for every integer within the digit limit |
| `PyInt.ParseNegative` | vision-server/app.py:157-158 | `int("-" + d)` is `-int(d)` when `d` starts with a digit (the error when `int(d)` raises), and a `ValueError` when `d` is empty or starts with anything else, such as whitespace or a second sign |
| `PyInt.ParsePositive` | vision-server/app.py:157-158 | `int("+" + d)` is `int(d)` when `d` starts with a digit, and a `ValueError` otherwise |
| `PyInt.ParseNatToDecimal` | vision-server/app.py:157-158 | `int(str(n)) == n` for every `n >= 0` within the digit limit |
| `PyInt.ParseSurroundedDecimal` | vision-server/app.py:157-158 | `int()` ignores the whitespace it skips (space, tab, line feed, vertical tab, form feed, carriage return) before and after the numeral |
| `PyInt.ParseRejectsSeparatorControl` | vision-server/app.py:157-160 | a control character 0x1C-0x1F anywhere in the text makes `int()` raise, although `str.strip()` counts it as whitespace |
| `PyInt.ParseUnderscore` | vision-server/app.py:157-158 | inserting one underscore between two digits, anywhere in any text, does not change what `int()` returns or whether it raises, so `"1_000_000"`, `" -1_0"` and `"1_0"` read like the text without it |
| `PyInt.ParseDoubleUnderscore` | vision-server/app.py:157-160 | any text holding two underscores in a row, signed, padded or not, makes `int()` raise `ValueError` |
| `PyInt.ParseLeadingZeros` | vision-server/app.py:157-160 | `int("0" * k + str(n))` is `n` when the literal has at most 4300 digits, and a `ValueError` otherwise |
| `PyInt.ParseRejectsStrayChar` | vision-server/app.py:157-160 | a character other than a digit, whitespace, a sign or an underscore anywhere in the text makes `int()` fail |
| `PyInt.ParseIgnoresCase` | vision-server/app.py:156-158 | lowering the text never changes what `int()` returns, so only the separator is affected by `lower()` |
| `PyInt.DigitsValueOfDecimal` | vision-server/app.py:157-158 | the digits of `str(n)`, read most significant first, denote `n` |
| `PyStr.Split` | vision-server/app.py:156 | `str.split(sep)` for a one-character separator; it always returns at least one piece |
| `PyStr.AsciiLower` | vision-server/app.py:156 | `str.lower()` (also used on `response_format` at app.py:196): same length, no upper-case letter left, A-Z moved to a-z, every other character unchanged |
| `PyStr.SplitCount` | vision-server/app.py:156 | `split` returns one more piece than there are separators |
| `PyStr.SplitPiecesFree` | vision-server/app.py:156 | no piece returned by `split` contains the separator |
| `PyStr.JoinSplit` | vision-server/app.py:156 | joining the pieces of `split` with the separator gives back the string |
| `PyStr.SplitJoin` | vision-server/app.py:156 | splitting undoes joining separator-free pieces |
| `PyStr.SplitTwo` | vision-server/app.py:156 | `a + "x" + b` with `x` in neither piece splits into exactly `[a, b]` |
| `PyStr.LowerCountX` | vision-server/app.py:156 | after `lower()` the text has one `x` for each `x` and each `X` it had before |
| `VisionApp.GenerateRequestValid` | vision-server/app.py:68-102 | a `GenerateRequest` is valid when the prompt has at least one character, guidance is in 0..20, steps in 1..100, any seed is at least 0, and width and height are in 256..maxEdge |
| `VisionApp.GenerateRequestErrors` | vision-server/app.py:68-102 | the list of failing fields is empty exactly when every `GenerateRequest` constraint holds, and names each field exactly when its own constraint fails |
| `VisionApp.BuildGenerateRequest` | vision-server/app.py:201-213 | building a `GenerateRequest` succeeds exactly when the record is valid, and then returns it unchanged; otherwise it raises a validation error naming at least one field |
| `VisionApp.DefaultGenerateRequestValid` | vision-server/app.py:68-102 | the declared defaults (guidance 7.0, 25 steps, no seed, 512 by 512) satisfy every constraint for a non-empty prompt when maxEdge is at least 512 |
| `VisionApp.OpenAIImageRequestValid` | vision-server/app.py:170-182 | an `OpenAIImageRequest` is valid when `n` is 1, any guidance is in 0..20, any steps value in 1..100, and any seed is at least 0; the prompt, size and response format are unconstrained |
| `VisionApp.MapImageRequest` | vision-server/app.py:195-213 | a `response_format` whose lower-case form is not `b64_json` is rejected whatever the size; a mapped request has the parsed size, the copied prompt, negative prompt and seed, steps and guidance from the request or the defaults, and satisfies every `GenerateRequest` constraint |
| `VisionApp.MapImageRequestSizeError` | vision-server/app.py:199 | a size error is returned as `_parse_size` raised it |
| `VisionApp.MapImageRequestOnlyPromptCanFail` | vision-server/app.py:199-213 | for a valid `OpenAIImageRequest` with a supported format and a valid size, mapping succeeds exactly when the prompt is non-empty; otherwise the error names only the prompt |
| `VisionApp.MapImageRequestFormatIgnoresCase` | vision-server/app.py:196-197 | every `response_format` whose lower case is `b64_json` (`"B64_JSON"`, `"b64_Json"`, ...) is handled exactly like `"b64_json"` |
| `VisionApp.MapDefaultImageRequest` | vision-server/app.py:170-182 | an `OpenAIImageRequest` carrying only a non-empty prompt maps to the `GenerateRequest` defaults, so the default size agrees with the default width and height |

## Left out

- Loading the diffusion pipeline and the `PIPELINE` global (app.py:30-65):
  model loading, GPU configuration and other foreign library calls.
- `_run_generation` (app.py:111-136): GPU inference, PNG and base64 encoding,
  and timing. The model stops where the mapped request is handed to it.
- The web application itself: CORS set-up, the start-up hook, the
  `/healthz` and `/generate` handlers, the HTTP statuses the framework
  chooses, and the `created` timestamp of the response.
- Reading the environment (app.py:13-19): `MAX_EDGE` is a parameter.
- `OpenAIImageRequestValid` is a predicate only. The framework checks it
  before the handler runs and answers 422 when it fails; that path, and
  pydantic's coercion of input types, are not modelled.
- `guidance_scale` is a real number bounded by 0 and 20. NaN, infinities
  and float rounding are not modelled.
- How the web framework reports the pydantic validation error raised while
  building `GenerateRequest` (`ValidationError` in the model) is not modelled.
- `n` and `model` are carried in `OpenAIImageRequest` but not used, as in
  the handler.
- `PyStr.AsciiLower` lowers only the letters A-Z. Python lowers every cased
  Unicode character, but no non-ASCII character lowers to `x` (the size's
  separator) or to one of the characters of `b64_json` (the `response_format`
  check), so neither check is affected.
- `PyInt.ParseInt` reads only ASCII digits and ASCII whitespace. Python's
  `int()` also accepts non-ASCII decimal digits and non-ASCII whitespace.
  The 4300-digit limit is CPython's default; changing it with
  `sys.set_int_max_str_digits` is not modelled.
- The repository's container launcher and its reverse proxy are not part of
  this model.
