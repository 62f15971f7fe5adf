/** The state bookkeeping of the programmable-pipeline renderer
    (`ofProgrammableGLRenderer`): the current matrix mode, the three
    matrices with their stacks, the viewport and its history, and the
    current colour. Uploads to the GPU and the shader are left out; the
    window and framebuffer sizes that `viewport` reads are parameters. */
module ProgrammableGLRenderer {
  import opened Util
  import opened Matrix4x4
  import GLRenderer

  /** `ofMatrixMode`. */
  datatype MatrixMode = ModelViewMode | ProjectionMode | TextureMode

  /** `ofFloatColor`: channels as fractions of 255. */
  datatype FloatColor = FloatColor(r: real, g: real, b: real, a: real)

  /** The matrix part of the renderer's state. The model-view matrix as
      loaded is `modelView`; the one in use, with the orientation applied,
      is `modelViewOrientation`. Stacks have their top last. */
  datatype MatrixState = MatrixState(
    mode: MatrixMode,
    modelView: seq<real>,
    modelViewOrientation: seq<real>,
    projection: seq<real>,
    textureMatrix: seq<real>,
    orientation: seq<real>,
    modelViewStack: seq<seq<real>>,
    projectionStack: seq<seq<real>>,
    textureStack: seq<seq<real>>)

  /** The matrix that the mode's stack saves and restores. */
  function Current(s: MatrixState, mode: MatrixMode): seq<real>
  {
    match mode
    case ModelViewMode => s.modelViewOrientation
    case ProjectionMode => s.projection
    case TextureMode => s.textureMatrix
  }

  /** The stack that belongs to a mode. */
  function Stack(s: MatrixState, mode: MatrixMode): seq<seq<real>>
  {
    match mode
    case ModelViewMode => s.modelViewStack
    case ProjectionMode => s.projectionStack
    case TextureMode => s.textureStack
  }

  /** `matrixMode(mode)`: only the mode changes. */
  function WithMode(s: MatrixState, mode: MatrixMode): (r: MatrixState)
    ensures r.mode == mode
    ensures forall md :: Current(r, md) == Current(s, md) && Stack(r, md) == Stack(s, md)
    ensures r.modelView == s.modelView && r.orientation == s.orientation
  {
    s.(mode := mode)
  }

  /** `pushMatrix`: the current mode's matrix goes on that mode's stack;
      the other stacks and all matrices stay. */
  function PushMatrix(s: MatrixState): (r: MatrixState)
    ensures Stack(r, s.mode) == Stack(s, s.mode) + [Current(s, s.mode)]
    ensures forall md :: md != s.mode ==> Stack(r, md) == Stack(s, md)
    ensures r.mode == s.mode && r.modelView == s.modelView && r.orientation == s.orientation
    ensures forall md :: Current(r, md) == Current(s, md)
  {
    match s.mode
    case ModelViewMode => s.(modelViewStack := s.modelViewStack + [s.modelViewOrientation])
    case ProjectionMode => s.(projectionStack := s.projectionStack + [s.projection])
    case TextureMode => s.(textureStack := s.textureStack + [s.textureMatrix])
  }

  /** `popMatrix` on a non-empty stack: the current mode's matrix becomes
      the top, which is popped; nothing else changes. */
  function PopMatrix(s: MatrixState): (r: MatrixState)
    requires |Stack(s, s.mode)| > 0
    ensures Current(r, s.mode) == Stack(s, s.mode)[|Stack(s, s.mode)| - 1]
    ensures Stack(r, s.mode) == Stack(s, s.mode)[..|Stack(s, s.mode)| - 1]
    ensures forall md :: md != s.mode ==> Stack(r, md) == Stack(s, md) && Current(r, md) == Current(s, md)
    ensures r.mode == s.mode && r.modelView == s.modelView && r.orientation == s.orientation
  {
    match s.mode
    case ModelViewMode =>
      s.(modelViewOrientation := s.modelViewStack[|s.modelViewStack| - 1],
         modelViewStack := s.modelViewStack[..|s.modelViewStack| - 1])
    case ProjectionMode =>
      s.(projection := s.projectionStack[|s.projectionStack| - 1],
         projectionStack := s.projectionStack[..|s.projectionStack| - 1])
    case TextureMode =>
      s.(textureMatrix := s.textureStack[|s.textureStack| - 1],
         textureStack := s.textureStack[..|s.textureStack| - 1])
  }

  /** Popping right after pushing gives the state back. */
  lemma PushPopRestores(s: MatrixState)
    ensures PopMatrix(PushMatrix(s)) == s
  {
    var p := PushMatrix(s);
    assert Stack(p, s.mode)[..|Stack(p, s.mode)| - 1] == Stack(s, s.mode);
  }

  /** `pushView`'s matrix part: one push on the projection stack, one on
      the model-view stack, and the mode put back. */
  function PushViewMatrices(s: MatrixState): (r: MatrixState)
    ensures r.mode == s.mode
    ensures r.projectionStack == s.projectionStack + [s.projection]
    ensures r.modelViewStack == s.modelViewStack + [s.modelViewOrientation]
    ensures r.textureStack == s.textureStack
    ensures forall md :: Current(r, md) == Current(s, md)
  {
    WithMode(PushMatrix(WithMode(PushMatrix(WithMode(s, ProjectionMode)), ModelViewMode)), s.mode)
  }

  /** `popView`'s matrix part: one pop from the projection stack, one from
      the model-view stack, and the mode put back. Both stacks must hold an
      entry, as `top` demands. */
  function PopViewMatrices(s: MatrixState): (r: MatrixState)
    requires |s.projectionStack| > 0 && |s.modelViewStack| > 0
    ensures r.mode == s.mode
    ensures r.projection == s.projectionStack[|s.projectionStack| - 1]
    ensures r.projectionStack == s.projectionStack[..|s.projectionStack| - 1]
    ensures r.modelViewOrientation == s.modelViewStack[|s.modelViewStack| - 1]
    ensures r.modelViewStack == s.modelViewStack[..|s.modelViewStack| - 1]
    ensures r.textureMatrix == s.textureMatrix && r.textureStack == s.textureStack
  {
    var p := PopMatrix(WithMode(s, ProjectionMode));
    WithMode(PopMatrix(WithMode(p, ModelViewMode)), s.mode)
  }

  /** `popView` after `pushView` gives the matrix state back. */
  lemma PushPopViewRestores(s: MatrixState)
    ensures PopViewMatrices(PushViewMatrices(s)) == s
  {
    var p := PushViewMatrices(s);
    assert p.projectionStack[..|p.projectionStack| - 1] == s.projectionStack;
    assert p.modelViewStack[..|p.modelViewStack| - 1] == s.modelViewStack;
  }

  /** `loadMatrix(m)`: the current mode's matrix is replaced; for the
      model-view mode the orientation is pre-multiplied onto it as well. */
  function LoadMatrix(s: MatrixState, m: seq<real>): (r: MatrixState)
    requires IsMatrix(m) && IsMatrix(s.orientation)
    ensures s.mode == ModelViewMode ==> r.modelView == m && r.modelViewOrientation == Product(s.orientation, m)
    ensures s.mode != ModelViewMode ==> Current(r, s.mode) == m && r.modelView == s.modelView
    ensures forall md :: md != s.mode ==> Current(r, md) == Current(s, md)
    ensures forall md :: Stack(r, md) == Stack(s, md)
    ensures r.mode == s.mode && r.orientation == s.orientation
  {
    match s.mode
    case ModelViewMode => s.(modelView := m, modelViewOrientation := Product(s.orientation, m))
    case ProjectionMode => s.(projection := m)
    case TextureMode => s.(textureMatrix := m)
  }

  /** With the identity orientation, the matrix loaded is the matrix in
      use, whatever the mode. */
  lemma LoadMatrixIdentityOrientation(s: MatrixState, m: seq<real>)
    requires IsMatrix(m) && IsMatrix(s.orientation) && IsIdentity(s.orientation)
    ensures Current(LoadMatrix(s, m), s.mode) == m
  {
    if s.mode == ModelViewMode {
      IdentityProduct(s.orientation, m);
    }
  }

  /** The rectangle `viewport(x, y, width, height, invertY)` sets: a zero
      width or height is replaced by the window's, and `invertY` flips y
      against the height of the bound framebuffer, or of the window when
      none is bound. */
  function ViewportRect(x: real, y: real, width: real, height: real, invertY: bool,
                        windowWidth: real, windowHeight: real, fboHeight: Option<real>): (r: Rect)
    ensures r.x == x
    ensures r.width == (if width == 0.0 then windowWidth else width)
    ensures r.height == (if height == 0.0 then windowHeight else height)
    ensures !invertY ==> r.y == y
    ensures invertY ==> r.y + r.height + y == (if fboHeight.Some? then fboHeight.value else windowHeight)
  {
    var w := if width == 0.0 then windowWidth else width;
    var h := if height == 0.0 then windowHeight else height;
    var y' := if !invertY then y
              else if fboHeight.Some? then fboHeight.value - (y + h)
              else windowHeight - (y + h);
    Rect(x, y', w, h)
  }

  /** Flipping y twice against the same height gives the rectangle back. */
  lemma InvertYTwice(r: Rect, windowWidth: real, windowHeight: real, fboHeight: Option<real>)
    requires r.width != 0.0 && r.height != 0.0
    ensures var f := ViewportRect(r.x, r.y, r.width, r.height, true, windowWidth, windowHeight, fboHeight);
            ViewportRect(f.x, f.y, f.width, f.height, true, windowWidth, windowHeight, fboHeight) == r
  {
  }

  /** Setting a saved rectangle again without flipping gives it back
      exactly when neither side is zero, or the window has the same size on
      that side. */
  lemma ViewportRestores(r: Rect, windowWidth: real, windowHeight: real, fboHeight: Option<real>)
    ensures ViewportRect(r.x, r.y, r.width, r.height, false, windowWidth, windowHeight, fboHeight) == r
            <==> (r.width != 0.0 || windowWidth == 0.0) && (r.height != 0.0 || windowHeight == 0.0)
  {
  }

  /** `setColor(r, g, b, a)`: each channel divided by 255. */
  function ColorOf(r: int, g: int, b: int, a: int): (c: FloatColor)
    ensures c.r * 255.0 == r as real && c.g * 255.0 == g as real
    ensures c.b * 255.0 == b as real && c.a * 255.0 == a as real
  {
    FloatColor(r as real / 255.0, g as real / 255.0, b as real / 255.0, a as real / 255.0)
  }

  /** A channel in 0..255 becomes a fraction in [0, 1]. */
  lemma ColorOfInUnitRange(r: int, g: int, b: int, a: int)
    requires 0 <= r <= 255 && 0 <= g <= 255 && 0 <= b <= 255 && 0 <= a <= 255
    ensures var c := ColorOf(r, g, b, a);
            0.0 <= c.r <= 1.0 && 0.0 <= c.g <= 1.0 && 0.0 <= c.b <= 1.0 && 0.0 <= c.a <= 1.0
  {
  }

  class Renderer {
    var currentMatrixMode: MatrixMode
    var modelView: seq<real>
    var modelViewOrientation: seq<real>
    var projection: seq<real>
    var textureMatrix: seq<real>
    var orientationMatrix: seq<real>
    var modelViewStack: seq<seq<real>>
    var projectionStack: seq<seq<real>>
    var textureStack: seq<seq<real>>
    var viewportHistory: seq<Rect>
    var currentViewport: Rect
    /** The bound framebuffer's height, or `None` for the null pointer. */
    var currentFbo: Option<real>
    var currentColor: FloatColor
    var bBackgroundAuto: bool

    /** The orientation is a matrix, so that `loadMatrix` can apply it. */
    predicate Valid()
      reads this
    {
      IsMatrix(orientationMatrix)
    }

    function State(): MatrixState
      reads this
    {
      MatrixState(currentMatrixMode, modelView, modelViewOrientation, projection, textureMatrix,
                  orientationMatrix, modelViewStack, projectionStack, textureStack)
    }

    /** The constructor: model-view mode, no framebuffer bound, empty
        stacks and history. The matrices start as the identity, as the
        default `ofMatrix4x4` does. */
    constructor (color: FloatColor)
      ensures Valid()
      ensures State() == MatrixState(ModelViewMode, Identity(), Identity(), Identity(), Identity(), Identity(), [], [], [])
      ensures viewportHistory == [] && currentViewport == Rect(0.0, 0.0, 0.0, 0.0)
      ensures currentFbo == None && currentColor == color && bBackgroundAuto
    {
      currentMatrixMode := ModelViewMode;
      modelView := Identity();
      modelViewOrientation := Identity();
      projection := Identity();
      textureMatrix := Identity();
      orientationMatrix := Identity();
      modelViewStack := [];
      projectionStack := [];
      textureStack := [];
      viewportHistory := [];
      currentViewport := Rect(0.0, 0.0, 0.0, 0.0);
      currentFbo := None;
      currentColor := color;
      bBackgroundAuto := true;
    }

    /** `finishRender`: `empty()` only asks whether the stacks are empty,
        so neither stack changes. */
    method FinishRender()
      ensures State() == old(State())
    {
    }

    /** `setCurrentFBO`. */
    method SetCurrentFbo(fboHeight: Option<real>)
      modifies this`currentFbo
      ensures currentFbo == fboHeight
    {
      currentFbo := fboHeight;
    }

    /** `matrixMode(mode)`. */
    method SetMatrixMode(mode: MatrixMode)
      modifies this`currentMatrixMode
      ensures State() == WithMode(old(State()), mode)
    {
      currentMatrixMode := mode;
    }

    /** `pushMatrix`. */
    method PushMatrixOnto()
      modifies this`modelViewStack, this`projectionStack, this`textureStack
      ensures State() == PushMatrix(old(State()))
    {
      match currentMatrixMode
      case ModelViewMode => modelViewStack := modelViewStack + [modelViewOrientation];
      case ProjectionMode => projectionStack := projectionStack + [projection];
      case TextureMode => textureStack := textureStack + [textureMatrix];
    }

    /** `popMatrix`: the current mode's stack must be non-empty. */
    method PopMatrixOff()
      requires |Stack(State(), currentMatrixMode)| > 0
      modifies this`modelViewOrientation, this`projection, this`textureMatrix
      modifies this`modelViewStack, this`projectionStack, this`textureStack
      ensures State() == PopMatrix(old(State()))
    {
      match currentMatrixMode
      case ModelViewMode =>
        modelViewOrientation := modelViewStack[|modelViewStack| - 1];
        modelViewStack := modelViewStack[..|modelViewStack| - 1];
      case ProjectionMode =>
        projection := projectionStack[|projectionStack| - 1];
        projectionStack := projectionStack[..|projectionStack| - 1];
      case TextureMode =>
        textureMatrix := textureStack[|textureStack| - 1];
        textureStack := textureStack[..|textureStack| - 1];
    }

    /** `loadMatrix(m)`. */
    method LoadMatrixInto(m: seq<real>)
      requires Valid() && IsMatrix(m)
      modifies this`modelView, this`modelViewOrientation, this`projection, this`textureMatrix
      ensures State() == LoadMatrix(old(State()), m)
    {
      match currentMatrixMode
      case ModelViewMode =>
        modelView := m;
        modelViewOrientation := Product(orientationMatrix, m);
      case ProjectionMode => projection := m;
      case TextureMode => textureMatrix := m;
    }

    /** `loadIdentityMatrix`. */
    method LoadIdentityMatrix()
      requires Valid()
      modifies this`modelView, this`modelViewOrientation, this`projection, this`textureMatrix
      ensures State() == LoadMatrix(old(State()), Identity())
    {
      LoadMatrixInto(Identity());
    }

    /** `viewport(x, y, width, height, invertY)`; the window size is what
        `ofGetWindowWidth` and `ofGetWindowHeight` would return. */
    method Viewport(x: real, y: real, width: real, height: real, invertY: bool, windowWidth: real, windowHeight: real)
      modifies this`currentViewport
      ensures currentViewport == ViewportRect(x, y, width, height, invertY, windowWidth, windowHeight, currentFbo)
    {
      var w := width;
      var h := height;
      var y' := y;
      if w == 0.0 {
        w := windowWidth;
      }
      if h == 0.0 {
        h := windowHeight;
      }
      if invertY {
        if currentFbo.Some? {
          y' := currentFbo.value - (y + h);
        } else {
          y' := windowHeight - (y + h);
        }
      }
      currentViewport := Rect(x, y', w, h);
    }

    /** `getCurrentViewport`. */
    function GetCurrentViewport(): Rect
      reads this
    {
      currentViewport
    }

    /** `pushView`: the viewport is saved, then one matrix each is pushed
        on the projection and model-view stacks; the mode is put back. */
    method PushView()
      modifies this`viewportHistory, this`currentMatrixMode
      modifies this`modelViewStack, this`projectionStack, this`textureStack
      ensures viewportHistory == old(viewportHistory) + [old(currentViewport)]
      ensures State() == PushViewMatrices(old(State()))
    {
      viewportHistory := viewportHistory + [currentViewport];
      var currentMode := currentMatrixMode;
      SetMatrixMode(ProjectionMode);
      PushMatrixOnto();
      SetMatrixMode(ModelViewMode);
      PushMatrixOnto();
      SetMatrixMode(currentMode);
    }

    /** `popView`: a saved viewport, if any, is set again without flipping
        and popped; an empty history keeps the viewport. Both matrix stacks
        are popped either way, so both must hold an entry. */
    method PopView(windowWidth: real, windowHeight: real)
      requires |projectionStack| > 0 && |modelViewStack| > 0
      modifies this`viewportHistory, this`currentViewport, this`currentMatrixMode
      modifies this`modelViewOrientation, this`projection, this`textureMatrix
      modifies this`modelViewStack, this`projectionStack, this`textureStack
      ensures old(viewportHistory) == [] ==> viewportHistory == [] && currentViewport == old(currentViewport)
      ensures old(viewportHistory) != [] ==>
        var top := old(viewportHistory)[|old(viewportHistory)| - 1];
        viewportHistory == old(viewportHistory)[..|old(viewportHistory)| - 1] &&
        currentViewport == ViewportRect(top.x, top.y, top.width, top.height, false, windowWidth, windowHeight, currentFbo)
      ensures State() == PopViewMatrices(old(State()))
    {
      if |viewportHistory| > 0 {
        var viewRect := viewportHistory[|viewportHistory| - 1];
        Viewport(viewRect.x, viewRect.y, viewRect.width, viewRect.height, false, windowWidth, windowHeight);
        viewportHistory := viewportHistory[..|viewportHistory| - 1];
      }
      var currentMode := currentMatrixMode;
      SetMatrixMode(ProjectionMode);
      PopMatrixOff();
      SetMatrixMode(ModelViewMode);
      PopMatrixOff();
      SetMatrixMode(currentMode);
    }

    /** `setColor(r, g, b, a)`. */
    method SetColorRGBA(r: int, g: int, b: int, a: int)
      modifies this`currentColor
      ensures currentColor == ColorOf(r, g, b, a)
    {
      currentColor := FloatColor(r as real / 255.0, g as real / 255.0, b as real / 255.0, a as real / 255.0);
    }

    /** `setColor(r, g, b)`: opaque. */
    method SetColorRGB(r: int, g: int, b: int)
      modifies this`currentColor
      ensures currentColor == ColorOf(r, g, b, 255)
    {
      SetColorRGBA(r, g, b, 255);
    }

    /** `setColor(color, a)`: the colour's channels with the given alpha. */
    method SetColorWithAlpha(color: Color, a: int)
      modifies this`currentColor
      ensures currentColor == ColorOf(color.r, color.g, color.b, a)
    {
      SetColorRGBA(color.r, color.g, color.b, a);
    }

    /** `setColor(gray)`: the same value on all three channels, opaque. */
    method SetColorGray(gray: int)
      modifies this`currentColor
      ensures currentColor == ColorOf(gray, gray, gray, 255)
    {
      SetColorRGB(gray, gray, gray);
    }

    /** `setHexColor(hex)`: bytes 2, 1 and 0 of the value as red, green and
        blue, opaque. */
    method SetHexColor(hexColor: int)
      modifies this`currentColor
      ensures currentColor == ColorOf(GLRenderer.HexByte(hexColor, 2), GLRenderer.HexByte(hexColor, 1), GLRenderer.HexByte(hexColor, 0), 255)
      ensures 0.0 <= currentColor.r <= 1.0 && 0.0 <= currentColor.g <= 1.0 && 0.0 <= currentColor.b <= 1.0
    {
      var r := (hexColor / 0x1_0000) % 0x100;
      var g := (hexColor / 0x100) % 0x100;
      var b := hexColor % 0x100;
      GLRenderer.HexBytes(hexColor);
      ColorOfInUnitRange(r, g, b, 255);
      SetColorRGB(r, g, b);
    }
  }
}
