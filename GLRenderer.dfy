/** The bookkeeping of the fixed-function GL renderer (`ofGLRenderer`): the
    framebuffer-id stack behind `bind`/`unbind` of an fbo, the bounded style
    history behind `pushStyle`/`popStyle`, the current style's setters and
    the set of enabled texture locations. The GL calls themselves are not
    modelled; only the state the renderer keeps about them. */
module GLRenderer {
  import opened Util

  /** `OF_MAX_STYLE_HISTORY`: the most styles `pushStyle` keeps. */
  const MAX_STYLE_HISTORY: nat := 32

  /** `ofFillFlag`. */
  datatype FillFlag = Outline | Filled

  /** The fields of `ofStyle` that the renderer's setters write. The
      enumerations (rect mode, winding mode, blend mode, bitmap mode) are
      kept as their integer values. */
  datatype Style = Style(
    color: Color, bgColor: Color, lineWidth: real, bFill: bool,
    rectMode: int, polyMode: int, blendingMode: int,
    curveResolution: int, drawBitmapMode: int, smoothing: bool)

  /** The settings of the renderer's `ofPath` that the style setters
      forward to it. */
  datatype PathSettings = PathSettings(filled: bool, strokeWidth: real, curveResolution: int, windingMode: int)

  /** The settings of the shared path once `style` is set: filled or
      outlined as the style says, with no stroke when filled and the style's
      line width otherwise, its curve resolution and its winding mode. */
  function PathOf(style: Style): PathSettings
  {
    PathSettings(style.bFill, if style.bFill then 0.0 else style.lineWidth, style.curveResolution, style.polyMode)
  }

  // ---------------------------------------------------------------------
  // Framebuffer ids

  /** The framebuffer that is bound and the ids saved below it. */
  datatype FboState = FboState(current: int, stack: seq<int>)

  /** `bind(fbo)`: binding the framebuffer that is already current is
      refused; otherwise the current id is saved and `id` becomes current. */
  function Bind(f: FboState, id: int): (r: FboState)
    ensures id == f.current ==> r == f
    ensures id != f.current ==> r.current == id && r.stack == f.stack + [f.current]
  {
    if f.current == id then f else FboState(id, f.stack + [f.current])
  }

  /** `unbind(fbo)`: the last saved id becomes current and is dropped; with
      nothing saved, the default framebuffer becomes current. */
  function Unbind(f: FboState, defaultId: int): (r: FboState)
    ensures f.stack == [] ==> r == FboState(defaultId, [])
    ensures f.stack != [] ==> r.current == f.stack[|f.stack| - 1] && r.stack + [r.current] == f.stack
  {
    if f.stack == [] then FboState(defaultId, [])
    else FboState(f.stack[|f.stack| - 1], f.stack[..|f.stack| - 1])
  }

  /** A bind that is not refused, followed by an unbind, restores the
      framebuffer state. */
  lemma BindUnbind(f: FboState, id: int, defaultId: int)
    requires id != f.current
    ensures Unbind(Bind(f, id), defaultId) == f
  {
    assert (f.stack + [f.current])[..|f.stack|] == f.stack;
  }

  /** Binding each of `ids` in turn. */
  function BindAll(f: FboState, ids: seq<int>): FboState
    decreases |ids|
  {
    if ids == [] then f else BindAll(Bind(f, ids[0]), ids[1..])
  }

  /** Unbinding `n` times. */
  function UnbindTimes(f: FboState, n: nat, defaultId: int): FboState
  {
    if n == 0 then f else Unbind(UnbindTimes(f, n - 1, defaultId), defaultId)
  }

  /** Each of `ids` differs from the framebuffer current when it is bound,
      so that no bind in the run is refused. */
  predicate Chained(current: int, ids: seq<int>)
    decreases |ids|
  {
    ids == [] || (ids[0] != current && Chained(ids[0], ids[1..]))
  }

  lemma {:induction false} UnbindTimesSucc(f: FboState, n: nat, defaultId: int)
    ensures UnbindTimes(f, n + 1, defaultId) == UnbindTimes(Unbind(f, defaultId), n, defaultId)
  {
    if n > 0 {
      UnbindTimesSucc(f, n - 1, defaultId);
    }
  }

  /** Nested `begin`/`end` of framebuffers: binding a chain of framebuffers
      and unbinding as many times returns to the framebuffer state before
      the first bind. */
  lemma {:induction false} NestedBindsRestore(f: FboState, ids: seq<int>, defaultId: int)
    requires Chained(f.current, ids)
    ensures UnbindTimes(BindAll(f, ids), |ids|, defaultId) == f
    decreases |ids|
  {
    if ids != [] {
      var g := Bind(f, ids[0]);
      NestedBindsRestore(g, ids[1..], defaultId);
      assert UnbindTimes(BindAll(g, ids[1..]), |ids[1..]|, defaultId) == g;
      BindUnbind(f, ids[0], defaultId);
    }
  }

  // ---------------------------------------------------------------------
  // Style history

  /** `pushStyle`: the style is appended and, when the history is then
      over the cap, the oldest entry is dropped. The newest entries are
      kept, in order, and the history never grows past the cap. */
  function PushStyle(history: seq<Style>, current: Style): (r: seq<Style>)
    ensures |r| == (if |history| < MAX_STYLE_HISTORY then |history| + 1 else |history|)
    ensures r[|r| - 1] == current
    ensures forall i :: 0 <= i < |r| - 1 ==> r[i] == history[i + |history| + 1 - |r|]
    ensures |history| <= MAX_STYLE_HISTORY ==> |r| <= MAX_STYLE_HISTORY
  {
    var pushed := history + [current];
    if |pushed| > MAX_STYLE_HISTORY then pushed[1..] else pushed
  }

  /** `popStyle` as written: on a non-empty history the OLDEST entry
      becomes the current style, while the NEWEST one is removed. */
  function PopStyleAsWritten(current: Style, history: seq<Style>): (r: (Style, seq<Style>))
    ensures history == [] ==> r == (current, history)
    ensures history != [] ==> r.0 == history[0] && r.1 + [history[|history| - 1]] == history
  {
    if history == [] then (current, history) else (history[0], history[..|history| - 1])
  }

  /** Once two styles are on the history, popping as written does not
      return to the style pushed last, but to an older one. */
  lemma PopStyleAsWrittenSkipsLatest(current: Style, history: seq<Style>, latest: Style)
    requires 1 <= |history| < MAX_STYLE_HISTORY && history[0] != latest
    ensures PopStyleAsWritten(current, PushStyle(history, latest)).0 != latest
  {
  }

  /** `popStyle` as evidently intended: the newest entry becomes current
      and is removed. */
  function PopStyle(current: Style, history: seq<Style>): (r: (Style, seq<Style>))
    ensures history == [] ==> r == (current, history)
    ensures history != [] ==> r.1 + [r.0] == history
  {
    if history == [] then (current, history) else (history[|history| - 1], history[..|history| - 1])
  }

  /** With the intended pop, pushing below the cap and popping restores
      both the current style and the history. */
  lemma PushPopRestores(current: Style, history: seq<Style>, other: Style)
    requires |history| < MAX_STYLE_HISTORY
    ensures PopStyle(other, PushStyle(history, current)) == (current, history)
  {
    assert (history + [current])[..|history|] == history;
  }

  // ---------------------------------------------------------------------
  // Colours

  /** Byte `k` (0 the lowest) of `hex`, as `(hex >> 8k) & 0xff` takes it
      from a two's complement integer: an arithmetic shift is a floor
      division by a power of two, and the mask is the non-negative
      remainder modulo 256. */
  function HexByte(hex: int, k: nat): (b: int)
    requires k <= 2
  {
    (hex / (if k == 0 then 1 else if k == 1 then 0x100 else 0x1_0000)) % 0x100
  }

  /** The three channels `setHexColor` takes are bytes, and together they
      are exactly the low 24 bits of the value. */
  lemma HexBytes(hex: int)
    ensures 0 <= HexByte(hex, 0) < 0x100 && 0 <= HexByte(hex, 1) < 0x100 && 0 <= HexByte(hex, 2) < 0x100
    ensures HexByte(hex, 2) * 0x1_0000 + HexByte(hex, 1) * 0x100 + HexByte(hex, 0) == hex % 0x100_0000
  {
    var q2 := hex / 0x1_0000;
    var q1 := hex / 0x100;
    assert q1 == q2 * 0x100 + q1 % 0x100;
    assert hex == q1 * 0x100 + hex % 0x100;
    assert hex == q2 * 0x1_0000 + (q1 % 0x100) * 0x100 + hex % 0x100;
    assert hex % 0x100_0000 == (q2 % 0x100) * 0x1_0000 + (q1 % 0x100) * 0x100 + hex % 0x100 by {
      var r := (q2 % 0x100) * 0x1_0000 + (q1 % 0x100) * 0x100 + hex % 0x100;
      assert 0 <= r < 0x100_0000;
      assert hex == (q2 / 0x100) * 0x100_0000 + r;
      HexModUnique(hex, q2 / 0x100, r);
    }
  }

  lemma HexModUnique(hex: int, q: int, r: int)
    requires 0 <= r < 0x100_0000 && hex == q * 0x100_0000 + r
    ensures hex % 0x100_0000 == r
  {
  }

  /** Packing three bytes as `0xRRGGBB` and taking them apart again gives
      the same channels. */
  lemma HexColorRoundTrip(r: int, g: int, b: int)
    requires 0 <= r < 0x100 && 0 <= g < 0x100 && 0 <= b < 0x100
    ensures HexByte(r * 0x1_0000 + g * 0x100 + b, 2) == r
    ensures HexByte(r * 0x1_0000 + g * 0x100 + b, 1) == g
    ensures HexByte(r * 0x1_0000 + g * 0x100 + b, 0) == b
  {
    var hex := r * 0x1_0000 + g * 0x100 + b;
    assert hex / 0x1_0000 == r;
    assert hex / 0x100 == r * 0x100 + g;
  }

  class Renderer {
    var currentFramebufferId: int
    var defaultFramebufferId: int
    var framebufferIdStack: seq<int>
    var currentStyle: Style
    var styleHistory: seq<Style>
    var path: PathSettings
    var textureLocationsEnabled: set<int>
    var bBackgroundAuto: bool
    var normalsEnabled: bool
    var lightingEnabled: bool

    /** The style history stays within its cap. */
    predicate Valid()
      reads this
    {
      |styleHistory| <= MAX_STYLE_HISTORY
    }

    /** The framebuffer bookkeeping as one value. */
    function Fbo(): FboState
      reads this
    {
      FboState(currentFramebufferId, framebufferIdStack)
    }

    /** A renderer before its first frame: both framebuffer ids 0, nothing
        saved, automatic background, normals and lighting off. The default
        style and path come from their own classes, which are not part of
        this model, and are given here. */
    constructor (style: Style, pathDefaults: PathSettings)
      ensures Valid()
      ensures currentFramebufferId == 0 && defaultFramebufferId == 0 && framebufferIdStack == []
      ensures currentStyle == style && styleHistory == [] && path == pathDefaults
      ensures textureLocationsEnabled == {} && bBackgroundAuto && !normalsEnabled && !lightingEnabled
    {
      currentFramebufferId := 0;
      defaultFramebufferId := 0;
      framebufferIdStack := [];
      currentStyle := style;
      styleHistory := [];
      path := pathDefaults;
      textureLocationsEnabled := {};
      bBackgroundAuto := true;
      normalsEnabled := false;
      lightingEnabled := false;
    }

    /** `startRender`: the default framebuffer becomes current and is
        saved on the stack. */
    method StartRender()
      modifies this`currentFramebufferId, this`framebufferIdStack
      ensures currentFramebufferId == defaultFramebufferId
      ensures framebufferIdStack == old(framebufferIdStack) + [defaultFramebufferId]
    {
      currentFramebufferId := defaultFramebufferId;
      framebufferIdStack := framebufferIdStack + [defaultFramebufferId];
    }

    /** `finishRender`: every saved framebuffer id is dropped. */
    method FinishRender()
      modifies this`framebufferIdStack
      ensures framebufferIdStack == []
    {
      framebufferIdStack := [];
    }

    /** `bind(fbo)` for the framebuffer with id `fboId`. */
    method BindFbo(fboId: int)
      modifies this`currentFramebufferId, this`framebufferIdStack
      ensures Fbo() == Bind(old(Fbo()), fboId)
    {
      if currentFramebufferId == fboId {
        return;
      }
      framebufferIdStack := framebufferIdStack + [currentFramebufferId];
      currentFramebufferId := fboId;
    }

    /** `unbind(fbo)`. */
    method UnbindFbo()
      modifies this`currentFramebufferId, this`framebufferIdStack
      ensures Fbo() == Unbind(old(Fbo()), defaultFramebufferId)
    {
      if framebufferIdStack == [] {
        currentFramebufferId := defaultFramebufferId;
      } else {
        currentFramebufferId := framebufferIdStack[|framebufferIdStack| - 1];
        framebufferIdStack := framebufferIdStack[..|framebufferIdStack| - 1];
      }
    }

    /** `setColor(r, g, b)`: opaque. */
    method SetColorRGB(r: int, g: int, b: int)
      modifies this`currentStyle
      ensures currentStyle == old(currentStyle).(color := Color(r, g, b, 255))
    {
      currentStyle := currentStyle.(color := Color(r, g, b, 255));
    }

    /** `setColor(r, g, b, a)`. */
    method SetColor(r: int, g: int, b: int, a: int)
      modifies this`currentStyle
      ensures currentStyle == old(currentStyle).(color := Color(r, g, b, a))
    {
      currentStyle := currentStyle.(color := Color(r, g, b, a));
    }

    /** `setHexColor`: bytes 2, 1 and 0 of the value are red, green and
        blue; the colour is opaque. */
    method SetHexColor(hexColor: int)
      modifies this`currentStyle
      ensures currentStyle == old(currentStyle).(color := Color(HexByte(hexColor, 2), HexByte(hexColor, 1), HexByte(hexColor, 0), 255))
      ensures currentStyle.color.r * 0x1_0000 + currentStyle.color.g * 0x100 + currentStyle.color.b == hexColor % 0x100_0000
    {
      var r := (hexColor / 0x1_0000) % 0x100;
      var g := (hexColor / 0x100) % 0x100;
      var b := hexColor % 0x100;
      HexBytes(hexColor);
      SetColorRGB(r, g, b);
    }

    /** `setBackgroundColor`. */
    method SetBackgroundColor(c: Color)
      modifies this`currentStyle
      ensures currentStyle == old(currentStyle).(bgColor := c)
    {
      currentStyle := currentStyle.(bgColor := c);
    }

    /** `setFillMode`: the style records whether shapes are filled; the
        path is filled without a stroke, or outlined with the current line
        width. */
    method SetFillMode(fill: FillFlag)
      modifies this`currentStyle, this`path
      ensures currentStyle == old(currentStyle).(bFill := fill == Filled)
      ensures path == old(path).(filled := fill == Filled,
                                 strokeWidth := if fill == Filled then 0.0 else currentStyle.lineWidth)
      ensures GetFillMode() == fill
    {
      currentStyle := currentStyle.(bFill := fill == Filled);
      if currentStyle.bFill {
        path := path.(filled := true, strokeWidth := 0.0);
      } else {
        path := path.(filled := false, strokeWidth := currentStyle.lineWidth);
      }
    }

    /** `getFillMode`. */
    function GetFillMode(): (fill: FillFlag)
      reads this
      ensures fill == Filled <==> currentStyle.bFill
    {
      if currentStyle.bFill then Filled else Outline
    }

    /** `setLineWidth`: the path's stroke follows only while outlining. */
    method SetLineWidth(lineWidth: real)
      modifies this`currentStyle, this`path
      ensures currentStyle == old(currentStyle).(lineWidth := lineWidth)
      ensures path == if old(currentStyle.bFill) then old(path) else old(path).(strokeWidth := lineWidth)
    {
      currentStyle := currentStyle.(lineWidth := lineWidth);
      if !currentStyle.bFill {
        path := path.(strokeWidth := lineWidth);
      }
    }

    method SetRectMode(mode: int)
      modifies this`currentStyle
      ensures currentStyle == old(currentStyle).(rectMode := mode)
    {
      currentStyle := currentStyle.(rectMode := mode);
    }

    method SetPolyMode(mode: int)
      modifies this`currentStyle, this`path
      ensures currentStyle == old(currentStyle).(polyMode := mode) && path == old(path).(windingMode := mode)
    {
      currentStyle := currentStyle.(polyMode := mode);
      path := path.(windingMode := mode);
    }

    method SetCurveResolution(resolution: int)
      modifies this`currentStyle, this`path
      ensures currentStyle == old(currentStyle).(curveResolution := resolution)
      ensures path == old(path).(curveResolution := resolution)
    {
      currentStyle := currentStyle.(curveResolution := resolution);
      path := path.(curveResolution := resolution);
    }

    method SetBlendMode(mode: int)
      modifies this`currentStyle
      ensures currentStyle == old(currentStyle).(blendingMode := mode)
    {
      currentStyle := currentStyle.(blendingMode := mode);
    }

    /** `setStyle`: every setter is applied in turn and the style is then
        copied whole, so the current style is `style` and the path carries
        its fill, stroke, curve resolution and winding mode. */
    method SetStyle(style: Style)
      modifies this`currentStyle, this`path
      ensures currentStyle == style
      ensures path == PathOf(style)
    {
      SetColor(style.color.r, style.color.g, style.color.b, style.color.a);
      SetBackgroundColor(style.bgColor);
      SetCurveResolution(style.curveResolution);
      SetLineWidth(style.lineWidth);
      SetRectMode(style.rectMode);
      SetPolyMode(style.polyMode);
      SetFillMode(if style.bFill then Filled else Outline);
      SetBlendMode(style.blendingMode);
      currentStyle := style;
    }

    /** `pushStyle`. */
    method PushStyleOnto()
      requires Valid()
      modifies this`styleHistory
      ensures Valid() && styleHistory == PushStyle(old(styleHistory), currentStyle)
    {
      styleHistory := styleHistory + [currentStyle];
      if |styleHistory| > MAX_STYLE_HISTORY {
        styleHistory := styleHistory[1..];
      }
    }

    /** `popStyle`, as the source has it: the oldest saved style is set,
        and the newest is removed. */
    method PopStyleOff()
      requires Valid()
      modifies this`currentStyle, this`path, this`styleHistory
      ensures Valid()
      ensures (currentStyle, styleHistory) == PopStyleAsWritten(old(currentStyle), old(styleHistory))
      ensures old(styleHistory) == [] ==> path == old(path)
      ensures old(styleHistory) != [] ==> path == PathOf(old(styleHistory)[0])
    {
      if |styleHistory| > 0 {
        SetStyle(styleHistory[0]);
        styleHistory := styleHistory[..|styleHistory| - 1];
      }
    }

    /** `enableTextureTarget`: the location is recorded as enabled. */
    method EnableTextureTarget(textureLocation: int)
      modifies this`textureLocationsEnabled
      ensures textureLocationsEnabled == old(textureLocationsEnabled) + {textureLocation}
    {
      textureLocationsEnabled := textureLocationsEnabled + {textureLocation};
    }

    /** `disableTextureTarget`: the location is no longer recorded. */
    method DisableTextureTarget(textureTarget: int, textureLocation: int)
      modifies this`textureLocationsEnabled
      ensures textureLocationsEnabled == old(textureLocationsEnabled) - {textureLocation}
    {
      textureLocationsEnabled := textureLocationsEnabled - {textureLocation};
    }
  }
}
