// The image server's request parameters (foundation/pkg/media/image/server/server.go):
// the fit and scale names, the padding colour's hexadecimal form, and the query loop that
// turns a request's query into the parameters an image variant is made with.
module ImageServer {
  import opened Wrappers
  import opened AzId
  import opened Strings
  import opened Decimal

  /** The status the server answers an unusable query with. */
  const StatusBadRequest: int := 400

  const ParamsHeightDefault: int := 1024
  const ParamsWidthDefault: int := 1024

  const ErrUnsupportedStringValue: AzError := Msg("unsupported string value")

  // ---------------------------------------------------------------------------------
  // Fit modes and scale directions (Go ints)
  // ---------------------------------------------------------------------------------

  type FitMode = int

  const FitModeUnspecified: FitMode := 0
  const FitModeContain: FitMode := 1
  const FitModeCrop: FitMode := 2

  /** FitModeFromString: trimmed and lowercased; contain/max, crop/cover/min, or "" for unspecified. */
  function FitModeFromString(s: string): (r: Result<FitMode, AzError>)
    ensures var t := TrimSpace(ToLower(s));
      (t == "contain" || t == "max" <==> r == Ok(FitModeContain)) &&
      (t == "crop" || t == "cover" || t == "min" <==> r == Ok(FitModeCrop)) &&
      (t == "" <==> r == Ok(FitModeUnspecified)) &&
      (r.Ok? ==> IsNamedFitMode(r.value)) &&
      (r.Err? ==> r.error == ErrUnsupportedStringValue)
  {
    match TrimSpace(ToLower(s))
    case "contain" => Ok(FitModeContain)
    case "max" => Ok(FitModeContain)
    case "crop" => Ok(FitModeCrop)
    case "cover" => Ok(FitModeCrop)
    case "min" => Ok(FitModeCrop)
    case "" => Ok(FitModeUnspecified)
    case _ => Err(ErrUnsupportedStringValue)
  }

  /** FitMode.String: the canonical name, "" for unspecified, "<invalid>" for any other int. */
  function FitModeString(fitMode: FitMode): (r: string)
  {
    if fitMode == FitModeContain then "contain"
    else if fitMode == FitModeCrop then "crop"
    else if fitMode == FitModeUnspecified then ""
    else "<invalid>"
  }

  /** A name in lower-case letters is the text the parsers compare it as. */
  lemma CanonicalNameUnchanged(s: string)
    requires s != [] && forall i :: 0 <= i < |s| ==> 'a' <= s[i] <= 'z'
    ensures TrimSpace(ToLower(s)) == s
  {
    ToLowerOfLower(s);
    TrimSpaceOfTrimmed(s);
  }

  predicate IsNamedFitMode(m: FitMode)
  {
    FitModeUnspecified <= m <= FitModeCrop
  }

  /** Printing a named fit mode and parsing it back gives it back. */
  lemma FitModeRoundTrip(m: FitMode)
    requires IsNamedFitMode(m)
    ensures FitModeFromString(FitModeString(m)) == Ok(m)
  {
    if m == FitModeContain {
      CanonicalNameUnchanged("contain");
    } else if m == FitModeCrop {
      CanonicalNameUnchanged("crop");
    } else {
      TrimSpaceOfTrimmed(ToLower(""));
    }
  }

  /** Any other value prints as "<invalid>", which neither parser accepts. */
  lemma InvalidTextRefused(m: FitMode, d: ScaleDirection, s: string)
    requires !IsNamedFitMode(m) && !IsNamedScaleDirection(d)
    requires TrimSpace(ToLower(s)) == "<invalid>"
    ensures FitModeString(m) == ScaleDirectionString(d) == "<invalid>"
    ensures FitModeFromString(s).Err? && ScaleDirectionFromString(s).Err?
  {
    NineLettersNoFitMode(s);
    NineLettersNoScaleDirection(s);
  }

  /** No fit mode name has nine letters. */
  lemma NineLettersNoFitMode(s: string)
    requires |TrimSpace(ToLower(s))| == 9
    ensures FitModeFromString(s).Err?
  {
  }

  /** No scale direction name has nine letters. */
  lemma NineLettersNoScaleDirection(s: string)
    requires |TrimSpace(ToLower(s))| == 9
    ensures ScaleDirectionFromString(s).Err?
  {
  }

  type ScaleDirection = int

  const ScaleDirectionUnspecified: ScaleDirection := 0
  const ScaleDirectionNone: ScaleDirection := 1
  const ScaleDirectionBoth: ScaleDirection := 2
  const ScaleDirectionUp: ScaleDirection := 3
  const ScaleDirectionDown: ScaleDirection := 4

  /** ScaleDirectionFromString: trimmed and lowercased; none, both, up, down, or "" for unspecified. */
  function ScaleDirectionFromString(s: string): (r: Result<ScaleDirection, AzError>)
    ensures var t := TrimSpace(ToLower(s));
      (t == "none" <==> r == Ok(ScaleDirectionNone)) &&
      (t == "both" <==> r == Ok(ScaleDirectionBoth)) &&
      (t == "up" <==> r == Ok(ScaleDirectionUp)) &&
      (t == "down" <==> r == Ok(ScaleDirectionDown)) &&
      (t == "" <==> r == Ok(ScaleDirectionUnspecified)) &&
      (r.Ok? ==> IsNamedScaleDirection(r.value)) &&
      (r.Err? ==> r.error == ErrUnsupportedStringValue)
  {
    match TrimSpace(ToLower(s))
    case "none" => Ok(ScaleDirectionNone)
    case "both" => Ok(ScaleDirectionBoth)
    case "up" => Ok(ScaleDirectionUp)
    case "down" => Ok(ScaleDirectionDown)
    case "" => Ok(ScaleDirectionUnspecified)
    case _ => Err(ErrUnsupportedStringValue)
  }

  /** ScaleDirection.String. */
  function ScaleDirectionString(scaleDir: ScaleDirection): (r: string)
  {
    if scaleDir == ScaleDirectionNone then "none"
    else if scaleDir == ScaleDirectionBoth then "both"
    else if scaleDir == ScaleDirectionUp then "up"
    else if scaleDir == ScaleDirectionDown then "down"
    else if scaleDir == ScaleDirectionUnspecified then ""
    else "<invalid>"
  }

  predicate IsNamedScaleDirection(d: ScaleDirection)
  {
    ScaleDirectionUnspecified <= d <= ScaleDirectionDown
  }

  /** The same round trip for scale directions. */
  lemma ScaleDirectionRoundTrip(d: ScaleDirection)
    requires IsNamedScaleDirection(d)
    ensures ScaleDirectionFromString(ScaleDirectionString(d)) == Ok(d)
  {
    if d == ScaleDirectionNone {
      CanonicalNameUnchanged("none");
    } else if d == ScaleDirectionBoth {
      CanonicalNameUnchanged("both");
    } else if d == ScaleDirectionUp {
      CanonicalNameUnchanged("up");
    } else if d == ScaleDirectionDown {
      CanonicalNameUnchanged("down");
    } else {
      TrimSpaceOfTrimmed(ToLower(""));
    }
  }

  /** White space outside ASCII is trimmed too: "contain" followed by a no-break space (U+00A0) is contain. */
  lemma NoBreakSpaceTrimmed(noBreakSpace: char)
    requires noBreakSpace as int == 0xA0
    ensures FitModeFromString("contain" + [noBreakSpace]) == Ok(FitModeContain)
  {
    SpaceAfterNameTrimmed("contain", noBreakSpace);
  }

  /** "up" after an ideographic space (U+3000) is the direction up. */
  lemma IdeographicSpaceTrimmed(ideographicSpace: char)
    requires ideographicSpace as int == 0x3000
    ensures ScaleDirectionFromString([ideographicSpace] + "up") == Ok(ScaleDirectionUp)
  {
    SpaceBeforeNameTrimmed("up", ideographicSpace);
  }

  /** A lower-case name followed by white space that is no ASCII letter reads as the name. */
  lemma SpaceAfterNameTrimmed(name: string, c: char)
    requires name != [] && forall i :: 0 <= i < |name| ==> 'a' <= name[i] <= 'z'
    requires IsSpace(c) && !('A' <= c <= 'Z')
    ensures TrimSpace(ToLower(name + [c])) == name
  {
    ToLowerOfLower(name);
    ToLowerOfLower([c]);
    ToLowerConcat(name, [c]);
    SpaceAfterNameIs(name, c);
  }

  lemma SpaceAfterNameIs(name: string, c: char)
    requires name != [] && forall i :: 0 <= i < |name| ==> 'a' <= name[i] <= 'z'
    requires IsSpace(c) && !('A' <= c <= 'Z')
    ensures TrimSpace(name + [c]) == name
  {
    TrailingSpaceTrimmed(name, c);
    LetterIsNoSpace(name[0]);
    LetterIsNoSpace(name[|name| - 1]);
    TrimSpaceOfTrimmed(name);
  }

  /** A lower-case name after white space that is no ASCII letter reads as the name. */
  lemma SpaceBeforeNameTrimmed(name: string, c: char)
    requires name != [] && forall i :: 0 <= i < |name| ==> 'a' <= name[i] <= 'z'
    requires IsSpace(c) && !('A' <= c <= 'Z')
    ensures TrimSpace(ToLower([c] + name)) == name
  {
    ToLowerOfLower(name);
    ToLowerOfLower([c]);
    ToLowerConcat([c], name);
    SpaceBeforeNameIs(name, c);
  }

  lemma SpaceBeforeNameIs(name: string, c: char)
    requires name != [] && forall i :: 0 <= i < |name| ==> 'a' <= name[i] <= 'z'
    requires IsSpace(c) && !('A' <= c <= 'Z')
    ensures TrimSpace([c] + name) == name
  {
    LeadingSpaceTrimmed(c, name);
    LetterIsNoSpace(name[0]);
    LetterIsNoSpace(name[|name| - 1]);
    TrimSpaceOfTrimmed(name);
  }

  // ---------------------------------------------------------------------------------
  // Padding colour
  // ---------------------------------------------------------------------------------

  datatype RGBA = RGBA(r: Octet, g: Octet, b: Octet, a: Octet)

  type Octet = x: int | 0 <= x < 256

  /** The colour as the 32-bit value A<<24 | R<<16 | G<<8 | B. */
  function ARGBValue(c: RGBA): (v: nat)
  {
    ((c.a * 256 + c.r) * 256 + c.g) * 256 + c.b
  }

  /** The channels of a 32-bit ARGB value, lowest byte first taken off. */
  function ChannelsOf(v: nat): (c: RGBA)
    requires v < 0x1_0000_0000
  {
    RGBA(v / 256 / 256 % 256, v / 256 % 256, v % 256, v / 256 / 256 / 256)
  }

  lemma DivMod256(x: nat, y: int)
    requires 0 <= y < 256
    ensures (x * 256 + y) / 256 == x && (x * 256 + y) % 256 == y
  {
  }

  /** The four channels fill the 32-bit value and can be taken back off it. */
  lemma ARGBValueChannels(c: RGBA)
    ensures ARGBValue(c) < 0x1_0000_0000
    ensures ChannelsOf(ARGBValue(c)) == c
  {
    var ar := c.a * 256 + c.r;
    var arg := ar * 256 + c.g;
    DivMod256(c.a, c.r);
    DivMod256(ar, c.g);
    DivMod256(arg, c.b);
    assert ar < 0x1_0000;
    assert arg < 0x100_0000;
  }

  /** rgbaToARGBHex: that value in lower-case hexadecimal, without leading zeros. */
  function RGBAToARGBHex(c: RGBA): (r: string)
  {
    FormatHex(ARGBValue(c))
  }

  /** The hexadecimal text gives the four channels back. */
  lemma ARGBHexRoundTrip(c: RGBA)
    ensures ParseHex(RGBAToARGBHex(c)) < 0x1_0000_0000
    ensures ChannelsOf(ParseHex(RGBAToARGBHex(c))) == c
  {
    ParseFormatHex(ARGBValue(c));
    ARGBValueChannels(c);
  }

  /** Distinct colours print differently. */
  lemma ARGBHexInjective(c1: RGBA, c2: RGBA)
    requires RGBAToARGBHex(c1) == RGBAToARGBHex(c2)
    ensures c1 == c2
  {
    ARGBHexRoundTrip(c1);
    ARGBHexRoundTrip(c2);
  }

  // ---------------------------------------------------------------------------------
  // Processing parameters
  // ---------------------------------------------------------------------------------

  datatype ProcessingParameters = ProcessingParameters(
    width: int, height: int, fit: FitMode, scale: ScaleDirection, paddingColor: Option<RGBA>)
  {
    /** IsPaddingRequested: a colour is given and it is not fully transparent. */
    predicate IsPaddingRequested()
    {
      paddingColor.Some? && paddingColor.value.a > 0
    }
  }

  /** The handler's configured default sizes; zero or less stands for none. */
  datatype HandlerConfig = HandlerConfig(processedFilesDir: string, rawFilesDir: string, heightDefault: int, widthDefault: int)

  function WidthDefault(config: HandlerConfig): (r: int)
    ensures r > 0
    ensures config.widthDefault > 0 ==> r == config.widthDefault
    ensures config.widthDefault <= 0 ==> r == ParamsWidthDefault
  {
    if config.widthDefault > 0 then config.widthDefault else ParamsWidthDefault
  }

  /** The height default starts from paramsWidthDefault, which has the same value as paramsHeightDefault. */
  function HeightDefault(config: HandlerConfig): (r: int)
    ensures r > 0
    ensures config.heightDefault > 0 ==> r == config.heightDefault
    ensures config.heightDefault <= 0 ==> r == ParamsHeightDefault
  {
    if config.heightDefault > 0 then config.heightDefault else ParamsWidthDefault
  }

  /** The digits after strconv.ParseInt's optional sign. */
  function UnsignedPart(s: string): (r: string)
    ensures s != [] && (s[0] == '-' || s[0] == '+') ==> r == s[1..]
    ensures s == [] || (s[0] != '-' && s[0] != '+') ==> r == s
  {
    if s != [] && (s[0] == '-' || s[0] == '+') then s[1..] else s
  }

  /** strconv.ParseInt(s, 10, 32): an optional sign and at least one digit, within the int32 range. */
  function ParseInt32(s: string): (r: Option<int>)
    ensures r.Some? ==> -0x8000_0000 <= r.value < 0x8000_0000
    ensures r.Some? ==> UnsignedPart(s) != [] && AllDigits(UnsignedPart(s))
    ensures s == [] ==> r.None?
  {
    var digits := UnsignedPart(s);
    if digits == [] || !AllDigits(digits) then None
    else
      var v: int := ParseDigits(digits);
      var n := if s[0] == '-' then -v else v;
      if -0x8000_0000 <= n < 0x8000_0000 then Some(n) else None
  }

  /** Every int32 reads back from its strconv.FormatInt text. */
  lemma ParseFormatInt32(n: int)
    requires -0x8000_0000 <= n < 0x8000_0000
    ensures ParseInt32(FormatInt(n)) == Some(n)
  {
    var s := FormatInt(n);
    if n < 0 {
      ParseFormatNat(-n);
      assert s[1..] == FormatNat(-n);
      assert UnsignedPart(s) == FormatNat(-n);
    } else {
      ParseFormatNat(n);
      assert UnsignedPart(s) == FormatNat(n);
    }
  }

  /** One query parameter: its key and its first value. */
  datatype QueryEntry = QueryEntry(key: string, value: string)

  /** The parameters the handler starts from. */
  function InitialParameters(config: HandlerConfig): (r: ProcessingParameters)
  {
    ProcessingParameters(WidthDefault(config), HeightDefault(config), FitModeContain, ScaleDirectionDown, None)
  }

  /** One pass of the query loop: the entry's key, lowercased, picks the field; a bad value or key is a 400. */
  function ApplyEntry(params: ProcessingParameters, entry: QueryEntry): (r: Result<ProcessingParameters, int>)
    ensures r.Err? ==> r.error == StatusBadRequest
    ensures r.Ok? ==> r.value.paddingColor == params.paddingColor
  {
    var key := ToLower(entry.key);
    if key == "width" || key == "w" then
      match ParseInt32(entry.value)
      case None => Err(StatusBadRequest)
      case Some(w) => Ok(params.(width := w))
    else if key == "height" || key == "h" then
      match ParseInt32(entry.value)
      case None => Err(StatusBadRequest)
      case Some(h) => Ok(params.(height := h))
    else if key == "fit" then
      match FitModeFromString(entry.value)
      case Err(_) => Err(StatusBadRequest)
      case Ok(fit) => Ok(if fit != FitModeUnspecified then params.(fit := fit) else params)
    else if key == "scale" then
      match ScaleDirectionFromString(entry.value)
      case Err(_) => Err(StatusBadRequest)
      case Ok(scale) => Ok(if scale != ScaleDirectionUnspecified then params.(scale := scale) else params)
    else Err(StatusBadRequest)
  }

  /** The query loop over the entries in the order the map gives them. */
  function ApplyQuery(params: ProcessingParameters, query: seq<QueryEntry>): (r: Result<ProcessingParameters, int>)
    ensures r.Err? ==> r.error == StatusBadRequest
  {
    if query == [] then Ok(params)
    else
      match ApplyQuery(params, query[..|query| - 1])
      case Err(e) => Err(e)
      case Ok(p) => ApplyEntry(p, query[|query| - 1])
  }

  /** The checks after the loop: a negative size is a 400, a zero size takes the default, an unspecified fit or scale its default. */
  function Normalize(params: ProcessingParameters, widthDefault: int, heightDefault: int): (r: Result<ProcessingParameters, int>)
    requires widthDefault > 0 && heightDefault > 0
    ensures params.width < 0 || params.height < 0 <==> r == Err(StatusBadRequest)
    ensures r.Ok? ==>
      r.value.width == (if params.width == 0 then widthDefault else params.width) &&
      r.value.height == (if params.height == 0 then heightDefault else params.height) &&
      r.value.fit == (if params.fit == FitModeUnspecified then FitModeContain else params.fit) &&
      r.value.scale == (if params.scale == ScaleDirectionUnspecified then ScaleDirectionDown else params.scale) &&
      r.value.paddingColor == params.paddingColor
  {
    if params.width < 0 then Err(StatusBadRequest)
    else if params.height < 0 then Err(StatusBadRequest)
    else
      var p := params.(width := if params.width == 0 then widthDefault else params.width);
      var p := p.(height := if params.height == 0 then heightDefault else params.height);
      var p := if p.fit == FitModeUnspecified then p.(fit := FitModeContain) else p;
      if p.scale == ScaleDirectionUnspecified then Ok(p.(scale := ScaleDirectionDown)) else Ok(p)
  }

  /** The parameters the handler serves a request with, or the 400 it answers. */
  function RequestParameters(config: HandlerConfig, query: seq<QueryEntry>): Result<ProcessingParameters, int>
  {
    match ApplyQuery(InitialParameters(config), query)
    case Err(e) => Err(e)
    case Ok(p) => Normalize(p, WidthDefault(config), HeightDefault(config))
  }

  /** The query loop of ServeHTTP: each entry in turn, stopping at the first refused one. */
  method ApplyQueryEntries(init: ProcessingParameters, query: seq<QueryEntry>) returns (r: Result<ProcessingParameters, int>)
    ensures r == ApplyQuery(init, query)
  {
    var params := init;
    for i := 0 to |query|
      invariant ApplyQuery(init, query[..i]) == Ok(params)
    {
      QueryStep(init, query, i, params);
      var entry := query[i];
      var key := ToLower(entry.key);
      if key == "width" || key == "w" {
        var wv := ParseInt32(entry.value);
        if wv.None? {
          ErrorStops(init, query, i + 1);
          return Err(StatusBadRequest);
        }
        params := params.(width := wv.value);
      } else if key == "height" || key == "h" {
        var hv := ParseInt32(entry.value);
        if hv.None? {
          ErrorStops(init, query, i + 1);
          return Err(StatusBadRequest);
        }
        params := params.(height := hv.value);
      } else if key == "fit" {
        var fit := FitModeFromString(entry.value);
        if fit.Err? {
          ErrorStops(init, query, i + 1);
          return Err(StatusBadRequest);
        }
        if fit.value != FitModeUnspecified {
          params := params.(fit := fit.value);
        }
      } else if key == "scale" {
        var scale := ScaleDirectionFromString(entry.value);
        if scale.Err? {
          ErrorStops(init, query, i + 1);
          return Err(StatusBadRequest);
        }
        if scale.value != ScaleDirectionUnspecified {
          params := params.(scale := scale.value);
        }
      } else {
        ErrorStops(init, query, i + 1);
        return Err(StatusBadRequest);
      }
    }
    assert query[..|query|] == query;
    return Ok(params);
  }

  /**
   * ServeHTTP's parameter phase: the defaults, then the query loop, then the checks;
   * the file lookup and image processing that follow are not part of this model.
   */
  method ResolveParameters(config: HandlerConfig, query: seq<QueryEntry>) returns (r: Result<ProcessingParameters, int>)
    ensures r == RequestParameters(config, query)
  {
    var widthDefault := ParamsWidthDefault;
    if config.widthDefault > 0 {
      widthDefault := config.widthDefault;
    }
    var heightDefault := ParamsWidthDefault;
    if config.heightDefault > 0 {
      heightDefault := config.heightDefault;
    }
    var looped := ApplyQueryEntries(ProcessingParameters(widthDefault, heightDefault, FitModeContain, ScaleDirectionDown, None), query);
    if looped.Err? {
      return looped;
    }
    var params := looped.value;
    if params.width <= 0 {
      if params.width < 0 {
        return Err(StatusBadRequest);
      }
      params := params.(width := widthDefault);
    }
    if params.height <= 0 {
      if params.height < 0 {
        return Err(StatusBadRequest);
      }
      params := params.(height := heightDefault);
    }
    if params.fit == FitModeUnspecified {
      params := params.(fit := FitModeContain);
    }
    if params.scale == ScaleDirectionUnspecified {
      params := params.(scale := ScaleDirectionDown);
    }
    return Ok(params);
  }

  /** One more entry of the query, applied to what the entries before it gave. */
  lemma QueryStep(init: ProcessingParameters, query: seq<QueryEntry>, i: nat, params: ProcessingParameters)
    requires i < |query| && ApplyQuery(init, query[..i]) == Ok(params)
    ensures ApplyQuery(init, query[..i + 1]) == ApplyEntry(params, query[i])
  {
    assert query[..i + 1][..i] == query[..i];
  }

  /** Once a prefix of the query is refused, so is the whole query. */
  lemma {:induction false} ErrorStops(params: ProcessingParameters, query: seq<QueryEntry>, k: nat)
    requires k <= |query| && ApplyQuery(params, query[..k]).Err?
    ensures ApplyQuery(params, query) == Err(StatusBadRequest)
  {
    if k == |query| {
      assert query[..k] == query;
    } else {
      var front := query[..|query| - 1];
      assert front[..k] == query[..k];
      ErrorStops(params, front, k);
    }
  }

  /** The loop keeps a named fit other than unspecified, a named scale direction other than unspecified, and no padding. */
  lemma {:induction false} QueryKeepsNamedModes(config: HandlerConfig, query: seq<QueryEntry>)
    requires ApplyQuery(InitialParameters(config), query).Ok?
    ensures var p := ApplyQuery(InitialParameters(config), query).value;
      p.fit in {FitModeContain, FitModeCrop} && p.scale in {ScaleDirectionNone, ScaleDirectionBoth, ScaleDirectionUp, ScaleDirectionDown} &&
      p.paddingColor.None?
  {
    if query != [] {
      QueryKeepsNamedModes(config, query[..|query| - 1]);
    }
  }

  /** Served parameters have positive sizes, a named fit and scale, and request no padding. */
  lemma ServedParametersNormalized(config: HandlerConfig, query: seq<QueryEntry>)
    requires RequestParameters(config, query).Ok?
    ensures var p := RequestParameters(config, query).value;
      p.width > 0 && p.height > 0 && p.fit in {FitModeContain, FitModeCrop} &&
      p.scale in {ScaleDirectionNone, ScaleDirectionBoth, ScaleDirectionUp, ScaleDirectionDown} && !p.IsPaddingRequested()
  {
    QueryKeepsNamedModes(config, query);
  }

  /** Without a query, the defaults are served. */
  lemma EmptyQueryGivesDefaults(config: HandlerConfig)
    ensures RequestParameters(config, []) ==
      Ok(ProcessingParameters(WidthDefault(config), HeightDefault(config), FitModeContain, ScaleDirectionDown, None))
  {
  }

  /** A width of 0 takes the default; a negative width is a 400; any positive width is kept. */
  lemma WidthQuery(config: HandlerConfig, w: int)
    requires -0x8000_0000 <= w < 0x8000_0000
    ensures var r := RequestParameters(config, [QueryEntry("width", FormatInt(w))]);
      (w == 0 ==> r.Ok? && r.value.width == WidthDefault(config)) &&
      (w < 0 ==> r == Err(StatusBadRequest)) &&
      (w > 0 ==> r.Ok? && r.value.width == w)
  {
    ParseFormatInt32(w);
    var init := InitialParameters(config);
    var q := [QueryEntry("width", FormatInt(w))];
    ToLowerOfLower("width");
    assert ApplyEntry(init, q[0]) == Ok(init.(width := w));
    assert q[..0] == [];
    assert ApplyQuery(init, q) == Ok(init.(width := w));
  }

  /** A key the handler does not know is a 400, wherever it comes in the query. */
  lemma {:induction false} UnknownKeyRefused(config: HandlerConfig, before: seq<QueryEntry>, entry: QueryEntry, after: seq<QueryEntry>)
    requires ToLower(entry.key) !in {"width", "w", "height", "h", "fit", "scale"}
    ensures RequestParameters(config, before + [entry] + after) == Err(StatusBadRequest)
  {
    UnknownKeyRefusedFrom(InitialParameters(config), before, entry, after);
  }

  /** One entry whose key is none of the handler's is a 400. */
  lemma UnknownEntryRefused(params: ProcessingParameters, entry: QueryEntry)
    requires ToLower(entry.key) !in {"width", "w", "height", "h", "fit", "scale"}
    ensures ApplyEntry(params, entry) == Err(StatusBadRequest)
  {
  }

  lemma {:induction false} UnknownKeyRefusedFrom(params: ProcessingParameters, before: seq<QueryEntry>, entry: QueryEntry, after: seq<QueryEntry>)
    requires ToLower(entry.key) !in {"width", "w", "height", "h", "fit", "scale"}
    ensures ApplyQuery(params, before + [entry] + after) == Err(StatusBadRequest)
    decreases |after|
  {
    var q := before + [entry] + after;
    if after == [] {
      assert q == before + [entry];
      UnknownEntryLastRefused(params, before, entry);
    } else {
      assert q[..|q| - 1] == before + [entry] + after[..|after| - 1];
      UnknownKeyRefusedFrom(params, before, entry, after[..|after| - 1]);
      RefusedPrefixRefused(params, q);
    }
  }

  /** The unknown key as the last entry. */
  lemma UnknownEntryLastRefused(params: ProcessingParameters, before: seq<QueryEntry>, entry: QueryEntry)
    requires ToLower(entry.key) !in {"width", "w", "height", "h", "fit", "scale"}
    ensures ApplyQuery(params, before + [entry]) == Err(StatusBadRequest)
  {
    var q := before + [entry];
    assert q[..|q| - 1] == before;
    match ApplyQuery(params, before)
    case Err(_) =>
    case Ok(p) => UnknownEntryRefused(p, entry);
  }

  /** Once a prefix of the query is a 400, the whole query is. */
  lemma RefusedPrefixRefused(params: ProcessingParameters, q: seq<QueryEntry>)
    requires q != [] && ApplyQuery(params, q[..|q| - 1]) == Err(StatusBadRequest)
    ensures ApplyQuery(params, q) == Err(StatusBadRequest)
  {
  }
}
