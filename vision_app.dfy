/**
 * The request handling of the vision diffusion service (vision-server/app.py):
 * parsing an image size written `WxH`, the field constraints of the internal
 * `GenerateRequest` and of the OpenAI-compatible `OpenAIImageRequest`, and the
 * translation of the latter into the former that `/v1/images/generations`
 * performs before it hands the request to the diffusion pipeline.
 *
 * `MAX_EDGE`, read from the environment at start-up, is the parameter
 * `maxEdge` of every operation that depends on it.
 */
module VisionApp {
  import opened Wrappers
  import PyStr
  import PyInt

  /** The `MAX_EDGE` used when the environment does not set one. */
  const DefaultMaxEdge: int := 1024

  /** The smallest width or height accepted. */
  const MinEdge: int := 256

  /** The defaults `GenerateRequest` declares. */
  const DefaultGuidanceScale: real := 7.0
  const DefaultInferenceSteps: int := 25
  const DefaultEdge: int := 512

  /** The bounds `GenerateRequest` and `OpenAIImageRequest` declare. */
  const MaxGuidanceScale: real := 20.0
  const MinInferenceSteps: int := 1
  const MaxInferenceSteps: int := 100

  /**
   * Why a request is refused: an `HTTPException` the handler raises, or the
   * validation error pydantic raises when a `GenerateRequest` is built with
   * fields that break its constraints (listed in declaration order).
   */
  datatype Rejection =
    | HttpError(status: int, detail: string)
    | ValidationError(fields: seq<Field>)

  const FormatDetail: string := "size must look like 512x512"
  const ResponseFormatDetail: string := "Only response_format=b64_json is supported"

  function RangeDetail(maxEdge: int): string {
    "size must stay within 256-" + PyInt.IntToDecimal(maxEdge) + "px per dimension"
  }

  const FormatError: Rejection := HttpError(400, FormatDetail)

  function RangeError(maxEdge: int): Rejection {
    HttpError(400, RangeDetail(maxEdge))
  }

  const ResponseFormatError: Rejection := HttpError(400, ResponseFormatDetail)

  // ---------------------------------------------------------------------------
  // _parse_size

  datatype Size = Size(width: int, height: int)

  predicate InRange(n: int, maxEdge: int) {
    MinEdge <= n <= maxEdge
  }

  /**
   * `_parse_size`: lower-case the text, split it on `x`, require exactly two
   * pieces that `int()` accepts (else the format error), then require both
   * numbers to lie in 256..maxEdge (else the range error).
   */
  function ParseSize(size: string, maxEdge: int): (r: Result<Size, Rejection>)
    ensures r.Success? ==> InRange(r.value.width, maxEdge) && InRange(r.value.height, maxEdge)
    ensures r.Failure? ==> r.error == FormatError || r.error == RangeError(maxEdge)
  {
    var parts := PyStr.Split(PyStr.AsciiLower(size), 'x');
    if |parts| != 2 then Failure(FormatError)
    else
      match (PyInt.ParseInt(parts[0]), PyInt.ParseInt(parts[1]))
      case (Some(width), Some(height)) =>
        if width < MinEdge || height < MinEdge || width > maxEdge || height > maxEdge
        then Failure(RangeError(maxEdge))
        else Success(Size(width, height))
      case _ => Failure(FormatError)
  }

  /** The text `str(w) + "x" + str(h)`. */
  function FormatSize(w: int, h: int): string {
    PyInt.IntToDecimal(w) + "x" + PyInt.IntToDecimal(h)
  }

  /** Zero or several separators (`x` or `X`) give the format error. */
  lemma ParseSizeSeparatorCount(size: string, maxEdge: int)
    requires PyStr.Count(size, 'x') + PyStr.Count(size, 'X') != 1
    ensures ParseSize(size, maxEdge) == Failure(FormatError)
  {
    PyStr.LowerCountX(size);
    PyStr.SplitCount(PyStr.AsciiLower(size), 'x');
  }

  /** Lower-casing `a + "x" + b` and splitting it gives back the lowered pieces. */
  lemma LoweredPieces(a: string, b: string)
    requires 'x' !in a && 'X' !in a && 'x' !in b && 'X' !in b
    ensures PyStr.Split(PyStr.AsciiLower(a + "x" + b), 'x') == [PyStr.AsciiLower(a), PyStr.AsciiLower(b)]
  {
    PyStr.LowerConcat(a + "x", b);
    PyStr.LowerConcat(a, "x");
    assert PyStr.AsciiLower("x") == "x";
    PyStr.LowerKeepsNoX(a);
    PyStr.LowerKeepsNoX(b);
    PyStr.SplitTwo(PyStr.AsciiLower(a), 'x', PyStr.AsciiLower(b));
  }

  /**
   * A piece that is not an integer gives the format error, whatever the
   * other piece is: the format check comes before the range check.
   */
  lemma ParseSizeNonInteger(a: string, b: string, maxEdge: int)
    requires 'x' !in a && 'X' !in a && 'x' !in b && 'X' !in b
    requires PyInt.ParseInt(a).None? || PyInt.ParseInt(b).None?
    ensures ParseSize(a + "x" + b, maxEdge) == Failure(FormatError)
  {
    LoweredPieces(a, b);
    PyInt.ParseIgnoresCase(a);
    PyInt.ParseIgnoresCase(b);
  }

  /**
   * Two integer pieces give the size, width first, when both lie in
   * 256..maxEdge, and the range error otherwise.
   */
  lemma ParseSizeIntegers(a: string, b: string, w: int, h: int, maxEdge: int)
    requires 'x' !in a && 'X' !in a && 'x' !in b && 'X' !in b
    requires PyInt.ParseInt(a) == Some(w) && PyInt.ParseInt(b) == Some(h)
    ensures ParseSize(a + "x" + b, maxEdge) ==
            if InRange(w, maxEdge) && InRange(h, maxEdge) then Success(Size(w, h))
            else Failure(RangeError(maxEdge))
  {
    LoweredPieces(a, b);
    PyInt.ParseIgnoresCase(a);
    PyInt.ParseIgnoresCase(b);
  }

  /** An upper-case `X` is read exactly like `x`. */
  lemma ParseSizeUpperX(a: string, b: string, maxEdge: int)
    ensures ParseSize(a + "X" + b, maxEdge) == ParseSize(a + "x" + b, maxEdge)
  {
    PyStr.LowerConcat(a + "X", b);
    PyStr.LowerConcat(a, "X");
    PyStr.LowerConcat(a + "x", b);
    PyStr.LowerConcat(a, "x");
    assert PyStr.AsciiLower("X") == "x" == PyStr.AsciiLower("x");
  }

  /** A decimal numeral contains no `x` or `X`. */
  lemma DecimalHasNoX(n: int)
    ensures 'x' !in PyInt.IntToDecimal(n) && 'X' !in PyInt.IntToDecimal(n)
  {
  }

  /**
   * Round trip: for `w` and `h` in 256..maxEdge, parsing
   * `str(w) + "x" + str(h)` gives back `(w, h)`.
   */
  lemma ParseSizeRoundTrip(w: int, h: int, maxEdge: int)
    requires InRange(w, maxEdge) && InRange(h, maxEdge)
    requires PyInt.Representable(w) && PyInt.Representable(h)
    ensures ParseSize(FormatSize(w, h), maxEdge) == Success(Size(w, h))
  {
    DecimalHasNoX(w);
    DecimalHasNoX(h);
    PyInt.ParseIntToDecimal(w);
    PyInt.ParseIntToDecimal(h);
    ParseSizeIntegers(PyInt.IntToDecimal(w), PyInt.IntToDecimal(h), w, h, maxEdge);
  }

  /**
   * The round trip holds for every size the configuration allows: `MAX_EDGE`
   * is itself read with `int()`, so it is within the digit limit, and so is
   * every dimension up to it.
   */
  lemma ParseSizeRoundTripConfigured(w: int, h: int, maxEdge: int)
    requires PyInt.Representable(maxEdge)
    requires InRange(w, maxEdge) && InRange(h, maxEdge)
    ensures ParseSize(FormatSize(w, h), maxEdge) == Success(Size(w, h))
  {
    PyInt.DecimalLengthMonotone(w, maxEdge);
    PyInt.DecimalLengthMonotone(h, maxEdge);
    ParseSizeRoundTrip(w, h, maxEdge);
  }

  /**
   * Leading zeros are accepted (`"0512x512"` is 512 by 512), but a piece with
   * more digits than `int()` converts gives the format error even when its
   * value is in range.
   */
  lemma ParseSizeLeadingZeros(k: nat, w: int, h: int, maxEdge: int)
    requires InRange(w, maxEdge) && InRange(h, maxEdge) && PyInt.Representable(h)
    ensures ParseSize(PyInt.Zeros(k) + PyInt.IntToDecimal(w) + "x" + PyInt.IntToDecimal(h), maxEdge) ==
            if k + |PyInt.IntToDecimal(w)| <= PyInt.MaxStrDigits then Success(Size(w, h))
            else Failure(FormatError)
  {
    var a := PyInt.Zeros(k) + PyInt.NatToDecimal(w);
    DecimalHasNoX(w);
    DecimalHasNoX(h);
    assert forall i :: 0 <= i < |a| ==> PyInt.IsDigit(a[i]);
    PyInt.ParseLeadingZeros(k, w);
    PyInt.ParseIntToDecimal(h);
    if k + |PyInt.IntToDecimal(w)| <= PyInt.MaxStrDigits {
      ParseSizeIntegers(a, PyInt.IntToDecimal(h), w, h, maxEdge);
    } else {
      ParseSizeNonInteger(a, PyInt.IntToDecimal(h), maxEdge);
    }
  }

  /** Whitespace around either number is accepted: `" 768 x 512 "` is 768 by 512. */
  lemma ParseSizeSurroundingWhitespace(ws1: string, ws2: string, ws3: string, ws4: string, w: int, h: int, maxEdge: int)
    requires PyInt.AllWhitespace(ws1) && PyInt.AllWhitespace(ws2)
    requires PyInt.AllWhitespace(ws3) && PyInt.AllWhitespace(ws4)
    requires InRange(w, maxEdge) && InRange(h, maxEdge)
    requires PyInt.Representable(w) && PyInt.Representable(h)
    ensures ParseSize((ws1 + PyInt.IntToDecimal(w) + ws2) + "x" + (ws3 + PyInt.IntToDecimal(h) + ws4), maxEdge)
            == Success(Size(w, h))
  {
    SurroundedHasNoX(ws1, w, ws2);
    SurroundedHasNoX(ws3, h, ws4);
    PyInt.ParseSurroundedDecimal(ws1, w, ws2);
    PyInt.ParseSurroundedDecimal(ws3, h, ws4);
    ParseSizeIntegers(ws1 + PyInt.IntToDecimal(w) + ws2, ws3 + PyInt.IntToDecimal(h) + ws4, w, h, maxEdge);
  }

  /**
   * The control characters 0x1C-0x1F are not whitespace to `int()`, so a size
   * padded with one is the format error: `"\x1c512x512"` is refused.
   */
  lemma ParseSizeSeparatorControl(maxEdge: int)
    ensures ParseSize("\U{1C}512x512", maxEdge) == Failure(FormatError)
  {
    var a := "\U{1C}512";
    assert 'x' !in a && 'X' !in a && 'x' !in "512" && 'X' !in "512";
    PyInt.ParseRejectsSeparatorControl(a, 0);
    ParseSizeNonInteger(a, "512", maxEdge);
    assert a + "x" + "512" == "\U{1C}512x512";
  }

  /** With the default `MAX_EDGE` every allowed size survives the round trip. */
  lemma ParseSizeRoundTripDefault(w: int, h: int)
    requires InRange(w, DefaultMaxEdge) && InRange(h, DefaultMaxEdge)
    ensures ParseSize(FormatSize(w, h), DefaultMaxEdge) == Success(Size(w, h))
  {
    assert PyInt.NatToDecimal(DefaultMaxEdge) == "1024";
    ParseSizeRoundTripConfigured(w, h, DefaultMaxEdge);
  }

  lemma SurroundedHasNoX(ws1: string, n: int, ws2: string)
    requires PyInt.AllWhitespace(ws1) && PyInt.AllWhitespace(ws2)
    ensures var s := ws1 + PyInt.IntToDecimal(n) + ws2; 'x' !in s && 'X' !in s
  {
  }

  // ---------------------------------------------------------------------------
  // GenerateRequest

  /**
   * The internal generation request.  `guidanceScale` stands for the Python
   * float as a real number.
   */
  datatype GenerateRequest = GenerateRequest(
    prompt: string,
    negativePrompt: Option<string>,
    guidanceScale: real,
    numInferenceSteps: int,
    seed: Option<int>,
    width: int,
    height: int)

  /** The request `/generate` receives when only a prompt is given. */
  function DefaultGenerateRequest(prompt: string): GenerateRequest {
    GenerateRequest(prompt, None, DefaultGuidanceScale, DefaultInferenceSteps, None, DefaultEdge, DefaultEdge)
  }

  predicate GuidanceInBounds(g: real) {
    0.0 <= g <= MaxGuidanceScale
  }

  predicate StepsInBounds(n: int) {
    MinInferenceSteps <= n <= MaxInferenceSteps
  }

  predicate SeedInBounds(seed: Option<int>) {
    seed.Some? ==> seed.value >= 0
  }

  /** Every field constraint `GenerateRequest` declares. */
  predicate GenerateRequestValid(g: GenerateRequest, maxEdge: int) {
    && |g.prompt| >= 1
    && GuidanceInBounds(g.guidanceScale)
    && StepsInBounds(g.numInferenceSteps)
    && SeedInBounds(g.seed)
    && InRange(g.width, maxEdge)
    && InRange(g.height, maxEdge)
  }

  /** The fields of `GenerateRequest` that carry a constraint. */
  datatype Field = Prompt | GuidanceScale | NumInferenceSteps | Seed | Width | Height

  function FieldCheck(ok: bool, f: Field): (errors: seq<Field>)
    ensures f in errors <==> !ok
    ensures forall e :: e in errors ==> e == f
  {
    if ok then [] else [f]
  }

  /** The fields of `g` whose constraint fails, in declaration order. */
  function GenerateRequestErrors(g: GenerateRequest, maxEdge: int): (errors: seq<Field>)
    ensures errors == [] <==> GenerateRequestValid(g, maxEdge)
    ensures Prompt in errors <==> g.prompt == ""
    ensures GuidanceScale in errors <==> !GuidanceInBounds(g.guidanceScale)
    ensures NumInferenceSteps in errors <==> !StepsInBounds(g.numInferenceSteps)
    ensures Seed in errors <==> !SeedInBounds(g.seed)
    ensures Width in errors <==> !InRange(g.width, maxEdge)
    ensures Height in errors <==> !InRange(g.height, maxEdge)
  {
    FieldCheck(|g.prompt| >= 1, Prompt)
    + FieldCheck(GuidanceInBounds(g.guidanceScale), GuidanceScale)
    + FieldCheck(StepsInBounds(g.numInferenceSteps), NumInferenceSteps)
    + FieldCheck(SeedInBounds(g.seed), Seed)
    + FieldCheck(InRange(g.width, maxEdge), Width)
    + FieldCheck(InRange(g.height, maxEdge), Height)
  }

  /** Building a `GenerateRequest`: the record itself, or pydantic's validation error. */
  function BuildGenerateRequest(g: GenerateRequest, maxEdge: int): (r: Result<GenerateRequest, Rejection>)
    ensures r.Success? <==> GenerateRequestValid(g, maxEdge)
    ensures r.Success? ==> r.value == g
    ensures r.Failure? ==> r.error.ValidationError? && r.error.fields != []
  {
    var errors := GenerateRequestErrors(g, maxEdge);
    if errors == [] then Success(g) else Failure(ValidationError(errors))
  }

  /** The defaults satisfy the constraints whenever 512 is an allowed edge. */
  lemma DefaultGenerateRequestValid(prompt: string, maxEdge: int)
    requires prompt != "" && maxEdge >= DefaultEdge
    ensures GenerateRequestValid(DefaultGenerateRequest(prompt), maxEdge)
  {
  }

  // ---------------------------------------------------------------------------
  // OpenAIImageRequest

  /** The body of `POST /v1/images/generations`. */
  datatype OpenAIImageRequest = OpenAIImageRequest(
    prompt: string,
    size: string,
    n: int,
    responseFormat: string,
    model: Option<string>,
    negativePrompt: Option<string>,
    guidanceScale: Option<real>,
    numInferenceSteps: Option<int>,
    seed: Option<int>)

  /** The request when only a prompt is given. */
  function DefaultOpenAIImageRequest(prompt: string): OpenAIImageRequest {
    OpenAIImageRequest(prompt, "512x512", 1, "b64_json", None, None, None, None, None)
  }

  /**
   * Every field constraint `OpenAIImageRequest` declares; the web framework
   * refuses a body that breaks one before the handler runs.  The prompt has
   * no length bound here.
   */
  predicate OpenAIImageRequestValid(req: OpenAIImageRequest) {
    && req.n == 1
    && (req.guidanceScale.Some? ==> GuidanceInBounds(req.guidanceScale.value))
    && (req.numInferenceSteps.Some? ==> StepsInBounds(req.numInferenceSteps.value))
    && SeedInBounds(req.seed)
  }

  // ---------------------------------------------------------------------------
  // openai_image_endpoint, up to the call of _run_generation

  /**
   * The generation request `/v1/images/generations` builds: refuse any
   * `response_format` other than `b64_json` (ignoring case), parse the size,
   * take steps and guidance from the request or else from the
   * `GenerateRequest` defaults, copy prompt, negative prompt and seed, and
   * build the `GenerateRequest`.
   */
  function MapImageRequest(req: OpenAIImageRequest, maxEdge: int): (r: Result<GenerateRequest, Rejection>)
    ensures PyStr.AsciiLower(req.responseFormat) != "b64_json" ==> r == Failure(ResponseFormatError)
    ensures r.Success? ==>
      && PyStr.AsciiLower(req.responseFormat) == "b64_json"
      && ParseSize(req.size, maxEdge) == Success(Size(r.value.width, r.value.height))
      && r.value.prompt == req.prompt
      && r.value.negativePrompt == req.negativePrompt
      && r.value.seed == req.seed
      && r.value.numInferenceSteps == req.numInferenceSteps.GetOr(DefaultInferenceSteps)
      && r.value.guidanceScale == req.guidanceScale.GetOr(DefaultGuidanceScale)
      && GenerateRequestValid(r.value, maxEdge)
  {
    if PyStr.AsciiLower(req.responseFormat) != "b64_json" then Failure(ResponseFormatError)
    else
      match ParseSize(req.size, maxEdge)
      case Failure(e) => Failure(e)
      case Success(size) =>
        BuildGenerateRequest(
          GenerateRequest(
            req.prompt,
            req.negativePrompt,
            req.guidanceScale.GetOr(DefaultGuidanceScale),
            req.numInferenceSteps.GetOr(DefaultInferenceSteps),
            req.seed,
            size.width,
            size.height),
          maxEdge)
  }

  /** A size error is returned as `_parse_size` raised it. */
  lemma MapImageRequestSizeError(req: OpenAIImageRequest, maxEdge: int)
    requires PyStr.AsciiLower(req.responseFormat) == "b64_json"
    requires ParseSize(req.size, maxEdge).Failure?
    ensures MapImageRequest(req, maxEdge) == Failure(ParseSize(req.size, maxEdge).error)
  {
  }

  /**
   * For a request the framework accepted, with a supported format and a
   * valid size, building the `GenerateRequest` fails exactly when the prompt
   * is empty, and then only the prompt is reported.
   */
  lemma MapImageRequestOnlyPromptCanFail(req: OpenAIImageRequest, maxEdge: int)
    requires OpenAIImageRequestValid(req)
    requires PyStr.AsciiLower(req.responseFormat) == "b64_json"
    requires ParseSize(req.size, maxEdge).Success?
    ensures MapImageRequest(req, maxEdge).Success? <==> req.prompt != ""
    ensures MapImageRequest(req, maxEdge).Failure? ==>
              MapImageRequest(req, maxEdge) == Failure(ValidationError([Prompt]))
  {
    var size := ParseSize(req.size, maxEdge).value;
    var g := GenerateRequest(
      req.prompt, req.negativePrompt,
      req.guidanceScale.GetOr(DefaultGuidanceScale),
      req.numInferenceSteps.GetOr(DefaultInferenceSteps),
      req.seed, size.width, size.height);
    var errors := GenerateRequestErrors(g, maxEdge);
    assert errors == if req.prompt == "" then [Prompt] else [];
  }

  /**
   * `response_format` is compared ignoring case: every spelling whose lower
   * case is `b64_json` (`"B64_JSON"`, `"b64_Json"`, ...) is handled like it.
   */
  lemma MapImageRequestFormatIgnoresCase(req: OpenAIImageRequest, maxEdge: int)
    requires PyStr.AsciiLower(req.responseFormat) == "b64_json"
    ensures MapImageRequest(req, maxEdge) == MapImageRequest(req.(responseFormat := "b64_json"), maxEdge)
  {
    LowerB64Json();
  }

  lemma LowerB64Json()
    ensures PyStr.AsciiLower("b64_json") == "b64_json"
  {
  }

  /**
   * A request with only a prompt becomes the default `GenerateRequest`: the
   * default size `512x512` agrees with the default width and height.
   */
  lemma MapDefaultImageRequest(prompt: string, maxEdge: int)
    requires prompt != "" && maxEdge >= DefaultEdge
    ensures MapImageRequest(DefaultOpenAIImageRequest(prompt), maxEdge) == Success(DefaultGenerateRequest(prompt))
  {
    var req := DefaultOpenAIImageRequest(prompt);
    DefaultSizeParses(maxEdge);
    LowerB64Json();
    DefaultGenerateRequestValid(prompt, maxEdge);
    MapImageRequestParsed(req, Size(DefaultEdge, DefaultEdge), maxEdge);
  }

  /** With a supported format and a parsed size, what is left is building the request. */
  lemma MapImageRequestParsed(req: OpenAIImageRequest, size: Size, maxEdge: int)
    requires PyStr.AsciiLower(req.responseFormat) == "b64_json"
    requires ParseSize(req.size, maxEdge) == Success(size)
    ensures MapImageRequest(req, maxEdge) == BuildGenerateRequest(
              GenerateRequest(
                req.prompt,
                req.negativePrompt,
                req.guidanceScale.GetOr(DefaultGuidanceScale),
                req.numInferenceSteps.GetOr(DefaultInferenceSteps),
                req.seed,
                size.width,
                size.height),
              maxEdge)
  {
  }

  lemma DefaultSizeParses(maxEdge: int)
    requires maxEdge >= DefaultEdge
    ensures ParseSize("512x512", maxEdge) == Success(Size(DefaultEdge, DefaultEdge))
  {
    Decimal512();
    ParseSizeRoundTrip(512, 512, maxEdge);
  }

  lemma Decimal512()
    ensures FormatSize(512, 512) == "512x512"
  {
  }
}
