# A verified model of openFrameworks core bookkeeping

This project models the sequential, self-contained logic at the core of
openFrameworks, the C++ creative-coding toolkit, and proves properties of it
in Dafny. One Dafny module stands for each source file below. The OS, OpenGL,
Cairo and OpenCV calls around that logic are replaced by parameters, so only
the state they touch is modelled.

- **`TcpManager`** (`ofxTCPManager`). The socket-handle state machine:
  - `Create`, `Close`, `Listen`, `Bind`, `Accept` and `Connect`;
  - blocking-mode toggling with rollback;
  - the byte-accumulation loops of `Write`, `SendAll` and `ReceiveAll`, with their deadlines;
  - the timeout and buffer-size accessors.

  Every OS call and every clock reading is an answer taken from a script that the caller passes in.
- **`Shader`** (`ofShader`). The two global reference-count tables, for shader ids and program ids, with retain and release. On top of them sit the copy constructor, assignment, `unload`, `linkProgram`, the state part of `setupShaderFromSource`, and `nameForType`.
- **`BaseGui`** (`ofxBaseGui`). The stencil codec: pixel alpha is packed into bytes and printed as `{0x..,..}`, then unpacked back into pixels. Also the position and size setters and getters.
- **`GuiGroup`** (`ofxGuiGroup`). The vertical layout of a group's children:
  - `add`, `clear`, `minimize`, `maximize` and `sizeChangedCB`;
  - lookup by name and by index, and the list of names;
  - find-or-create by name and type.
- **`CairoRenderer`** (`ofCairoRenderer`). Triangle-index generation for the three triangle modes, the page counter of `setupScreen`, and the `curvePoints` window of `drawPath`.
- **`ShapeUtils`** (`ofShapeUtils`). The wrap-around index arithmetic of `loopMod` and `loopGet`, polyline smoothing, and polyline resampling.
- **`Polyline`** (`ofPolyline`). The vertex list and its dirty flag, the shoelace area, the bounding box, index clamping, and `simplify`: vertex reduction followed by Douglas-Peucker marking over an array.
- **`GLRenderer`** (`ofGLRenderer`). The framebuffer-id stack, the bounded style history, the colour and fill setters, and the set of enabled texture locations.
- **`ProgrammableGLRenderer`** (`ofProgrammableGLRenderer`). The per-mode matrix stacks, the viewport history, the viewport computation, and the float colour.
- **`Vbo`** (`ofVbo`). The usage-flag and buffer-id state machine, the draw guards, and `clear`.
- **`Vec4`** (`ofVec4f`). Component-wise arithmetic with guarded division, indexing, interpolation, the middle point, the average, and squared measures.
- **`Matrix4x4`** (`ofMatrix4x4`). Row-major 4x4 storage:
  - `set` and assignment;
  - the identity test, the translation and the transpose;
  - vector products and the 3x3 transforms;
  - the in-place translate and scale updates, proved equal to multiplying by a translation or scaling matrix.
- **`CvFloatImage`** (`ofxCvFloatImage`). The in-place scale-and-clamp loop over the pixel buffer, the size-checked assignments, and the checking of the interpolation method.
- **`UnitTests`** (`ofxUnitTests`). The test counters, the pass flag and exit code of `setup`, and the log colour of each level.
- **`MainLoop`** (`ofMainLoop`). The should-close and escape logic, the passes of the default loop that erase closing windows, and the status `loop` returns.
- **`Util`**. The option and outcome types and the sums shared by the other modules.

Floating-point values are modelled as `real`. Only the parts of the code that use `+ - * /` and comparisons are modelled.

## Model

| member | source | states |
|---|---|---|
| TcpManager.WriteCompletes | addons/ofxNetwork/src/ofxTCPManager.cpp:263-280 | when no answer up to the k-th is an error or a timeout and the running total first reaches the size at the k-th answer, `Write` returns that total: the sum of the first k+1 answers |
| TcpManager.WritePropagatesFailure | addons/ofxNetwork/src/ofxTCPManager.cpp:270-273 | the first `SOCKET_ERROR` or `SOCKET_TIMEOUT` answered before the data is complete is exactly what `Write` returns |
| TcpManager.WriteResultRange | addons/ofxNetwork/src/ofxTCPManager.cpp:263-280 | whatever the answers, `Write` returns `SOCKET_ERROR`, `SOCKET_TIMEOUT` or a count of at least the requested size |
| TcpManager.WriteOnInvalidHandle | addons/ofxNetwork/src/ofxTCPManager.cpp:303 | on an invalid handle `Write` fails with `SOCKET_ERROR` at its first `Send` |
| TcpManager.SendAllLateCompletion | addons/ofxNetwork/src/ofxTCPManager.cpp:343-349 | when the clock first passes the send deadline after the k-th chunk and the data is still incomplete, `SendAll` returns `SOCKET_TIMEOUT`, whatever follows |
| TcpManager.SendAllResultRange | addons/ofxNetwork/src/ofxTCPManager.cpp:322-354 | whatever the answers, the chunk loop returns `SOCKET_ERROR`, `SOCKET_TIMEOUT` or a total of at least the requested size |
| TcpManager.ReceiveAllPrematureClose | addons/ofxNetwork/src/ofxTCPManager.cpp:420-427 | a `recv` of 0 bytes before the requested size is reached stops the loop with `SOCKET_ERROR` when a receive timeout is set and `SOCKET_TIMEOUT` when none is |
| TcpManager.ReceiveAllResultRange | addons/ofxNetwork/src/ofxTCPManager.cpp:398-443 | whatever the answers, the receive loop returns `SOCKET_ERROR`, `SOCKET_TIMEOUT` or a total of at least the requested size |
| TcpManager.SendAllSkip | addons/ofxNetwork/src/ofxTCPManager.cpp:343-353 | while every chunk before the k-th succeeds, meets the deadline and leaves the data incomplete, the loop behaves as if it started at chunk k with their sizes already added |
| TcpManager.SendAllFailure | addons/ofxNetwork/src/ofxTCPManager.cpp:345-346 | a `send` error at the k-th chunk, after chunks that all continued, makes `SendAll` return `SOCKET_ERROR` |
| TcpManager.SendAllCompletes | addons/ofxNetwork/src/ofxTCPManager.cpp:343-353 | when the running total first reaches the size at the k-th chunk, inside the deadline, `SendAll` returns that total |
| TcpManager.ReceiveAllSkip | addons/ofxNetwork/src/ofxTCPManager.cpp:419-440 | while every call before the k-th receives bytes inside both time limits and leaves the data incomplete, the loop behaves as if it started at call k with their counts already added |
| TcpManager.ReceiveAllNegative | addons/ofxNetwork/src/ofxTCPManager.cpp:429-431 | a negative `recv` answer at the k-th call, after calls that all continued, makes `ReceiveAll` return `SOCKET_ERROR` |
| TcpManager.ReceiveAllCeiling | addons/ofxNetwork/src/ofxTCPManager.cpp:437-438 | at any call k reached with bytes received and no deadline passed, more than ten seconds since the loop's start make `ReceiveAll` give up with `SOCKET_TIMEOUT` |
| TcpManager.ReceiveAllCompletes | addons/ofxNetwork/src/ofxTCPManager.cpp:419-442 | when the running total first reaches the size at the k-th call, inside both time limits, `ReceiveAll` returns that total |
| TcpManager.ConnectTimeoutCases | addons/ofxNetwork/src/ofxTCPManager.cpp:200-222 | a connection still in progress whose `select` times out (answers 0) is reported as connected when a connect timeout is set, and as failed when none is |
| TcpManager.ConnectSelectErrorReported | addons/ofxNetwork/src/ofxTCPManager.cpp:211-223 | a waited-for connect whose `select` answers 1 while the socket reports an error is still reported as connected |
| TcpManager.ConnectResultChecked | addons/ofxNetwork/src/ofxTCPManager.cpp:202-223 | the corrected answer: a waited-for connect is reported as connected only when `select` answers 1 and the socket reports no error |
| TcpManager.ConnectCheckedAgrees | addons/ofxNetwork/src/ofxTCPManager.cpp:202-223 | the corrected answer never reports a connection the one as written refuses, and the two differ exactly on a waited-for connect that times out, ends in a socket error or gets an answer above 1 |
| TcpManager.ConnectImmediateFailure | addons/ofxNetwork/src/ofxTCPManager.cpp:200-223 | a `connect` that fails with any error other than "in progress" makes `Connect` report failure, whatever the other answers |
| TcpManager.Manager.constructor | addons/ofxNetwork/src/ofxTCPManager.cpp:27-35 | a new manager has no socket, is blocking and not closing, has the default timeouts (5 s for connect), listen port -1 and at most 100 connections |
| TcpManager.Manager.Close | addons/ofxNetwork/src/ofxTCPManager.cpp:41-68 | closing without a socket succeeds and changes nothing; otherwise the manager is marked closing, and the handle is dropped exactly when `close` succeeds or fails with "not a socket", which is also the result |
| TcpManager.Manager.Create | addons/ofxNetwork/src/ofxTCPManager.cpp:104-116 | creating over an open socket fails and changes nothing; otherwise the handle becomes the answer of `socket`, the closing flag is cleared and the result says whether the handle is valid |
| TcpManager.Manager.Listen | addons/ofxNetwork/src/ofxTCPManager.cpp:120-127 | without a socket it fails and keeps the connection limit; with one it records the limit and succeeds exactly when `listen` does not fail |
| TcpManager.Manager.Bind | addons/ofxNetwork/src/ofxTCPManager.cpp:129-144 | binding succeeds exactly when `bind` answers 0 |
| TcpManager.Manager.Accept | addons/ofxNetwork/src/ofxTCPManager.cpp:147-175 | without a socket, or when the accept wait times out, it fails and leaves the other handle; otherwise the other manager takes the accepted handle and success means that handle is valid; the listening handle is never changed |
| TcpManager.Manager.SetNonBlocking | addons/ofxNetwork/src/ofxTCPManager.cpp:228-256 | asking for the current mode succeeds without a call; a change succeeds exactly when `fcntl` does not fail, and a failure keeps the old mode |
| TcpManager.Manager.Connect | addons/ofxNetwork/src/ofxTCPManager.cpp:179-224 | without a socket or a resolved name it fails and keeps the mode; otherwise the result is that of the connect-with-timeout sequence, and the blocking mode comes back to its old value unless forcing it succeeded and restoring it failed |
| TcpManager.Manager.Send | addons/ofxNetwork/src/ofxTCPManager.cpp:301-316 | without a socket the result is `SOCKET_ERROR`; with a send timeout a `select` of 0 gives `SOCKET_TIMEOUT`; otherwise the answer of `send` |
| TcpManager.Manager.Write | addons/ofxNetwork/src/ofxTCPManager.cpp:263-280 | the loop returns what the specification of repeated sends gives for the answers of its `Send` calls (see the Write lemmas above) |
| TcpManager.Manager.SendAll | addons/ofxNetwork/src/ofxTCPManager.cpp:322-354 | without a socket `SOCKET_ERROR`, a timed-out first `select` `SOCKET_TIMEOUT`, and otherwise what the chunk-loop specification gives (see the SendAll lemmas) |
| TcpManager.Manager.Receive | addons/ofxNetwork/src/ofxTCPManager.cpp:362-377 | without a socket `SOCKET_ERROR`; with a receive timeout a `select` of 0 gives `SOCKET_TIMEOUT`; otherwise the answer of `recv`; the wait passed to `select` is the send timeout, as in the source |
| TcpManager.Manager.PeekReceive | addons/ofxNetwork/src/ofxTCPManager.cpp:386-392 | without a socket `SOCKET_ERROR`, otherwise the answer of the peeking `recv` |
| TcpManager.Manager.ReceiveAll | addons/ofxNetwork/src/ofxTCPManager.cpp:398-443 | the loop returns what the receive-loop specification gives for the script (see the ReceiveAll lemmas), after the same first wait as `Receive` |
| TcpManager.Manager.GetRemoteAddr | addons/ofxNetwork/src/ofxTCPManager.cpp:446-460 | succeeds exactly when there is a socket and `getpeername` does not fail |
| TcpManager.Manager.GetInetAddr | addons/ofxNetwork/src/ofxTCPManager.cpp:463-477 | succeeds exactly when there is a socket and `getsockname` does not fail |
| TcpManager.Manager.SetTimeoutConnect | addons/ofxNetwork/src/ofxTCPManager.cpp:479-481 | the connect timeout becomes the given seconds and nothing else changes |
| TcpManager.Manager.SetTimeoutSend | addons/ofxNetwork/src/ofxTCPManager.cpp:482-484 | the send timeout becomes the given seconds and nothing else changes |
| TcpManager.Manager.SetTimeoutReceive | addons/ofxNetwork/src/ofxTCPManager.cpp:485-487 | the receive timeout becomes the given seconds and nothing else changes |
| TcpManager.Manager.SetTimeoutAccept | addons/ofxNetwork/src/ofxTCPManager.cpp:488-490 | the accept timeout becomes the given seconds and nothing else changes |
| TcpManager.Manager.GetReceiveBufferSize | addons/ofxNetwork/src/ofxTCPManager.cpp:504-518 | 0 without a socket or when `getsockopt` fails, otherwise the size it reports |
| TcpManager.Manager.SetReceiveBufferSize | addons/ofxNetwork/src/ofxTCPManager.cpp:520-529 | succeeds exactly when there is a socket and `setsockopt` answers 0 |
| TcpManager.Manager.GetSendBufferSize | addons/ofxNetwork/src/ofxTCPManager.cpp:531-545 | 0 without a socket or when `getsockopt` fails, otherwise the size it reports |
| TcpManager.Manager.SetSendBufferSize | addons/ofxNetwork/src/ofxTCPManager.cpp:547-556 | succeeds exactly when there is a socket and `setsockopt` answers 0 |
| Shader.Retained | libs/openFrameworks/gl/ofShader.cpp:24-31 | retaining id 0 changes nothing; any other id ends up in the table with its old count plus one (1 when it was absent), and every other entry is untouched |
| Shader.Released | libs/openFrameworks/gl/ofShader.cpp:34-47 | releasing an unknown id leaves the table alone; an id held once is erased; otherwise its count drops by one; every other entry is untouched |
| Shader.Put | libs/openFrameworks/gl/ofShader.cpp:190 | storing a stage under its type makes it present, and the stages of every other type are exactly those before; on stages with one entry per type the result again has one entry per type, and its only stage of that type is the new one |
| Shader.RetainedReleasedWellFormed | libs/openFrameworks/gl/ofShader.cpp:24-71 | retain and release keep every count in the reference tables positive |
| Shader.ReleaseUndoesRetain | libs/openFrameworks/gl/ofShader.cpp:24-47 | releasing a non-zero id right after retaining it gives back the very same table |
| Shader.TallyRetained | libs/openFrameworks/gl/ofShader.cpp:24-31 | a retain adds one to the count of its own non-zero id and to no other |
| Shader.TallyReleased | libs/openFrameworks/gl/ofShader.cpp:34-47 | a release takes one from the count of its own id when the id is known, and from no other |
| Shader.TallyRetainAll | libs/openFrameworks/gl/ofShader.cpp:90-95 | retaining a list of ids adds to each non-zero id's count the number of times it occurs in the list |
| Shader.TallyReleaseAll | libs/openFrameworks/gl/ofShader.cpp:341-349 | releasing a list of ids, each held at least as often as it occurs, takes from each count its number of occurrences |
| Shader.CopyThenUnloadRestores | libs/openFrameworks/gl/ofShader.cpp:86-97 | copying a loaded shader and then unloading the copy leaves the shader table exactly as before the copy |
| Shader.NameForType | libs/openFrameworks/gl/ofShader.cpp:756-765 | the three known shader types get their own names, and "UNKNOWN SHADER TYPE" is returned exactly for every other type |
| Shader.Registry.constructor | libs/openFrameworks/gl/ofShader.cpp:13-21 | both process-wide tables start empty |
| Shader.Registry.RetainShader | libs/openFrameworks/gl/ofShader.cpp:24-31 | the shader table becomes the retained table, and all counts stay positive |
| Shader.Registry.ReleaseShader | libs/openFrameworks/gl/ofShader.cpp:34-47 | the shader table becomes the released table; the GL object is deleted exactly when the id was unknown or held once |
| Shader.Registry.RetainProgram | libs/openFrameworks/gl/ofShader.cpp:50-57 | the program table becomes the retained table, and all counts stay positive |
| Shader.Registry.ReleaseProgram | libs/openFrameworks/gl/ofShader.cpp:60-71 | the program table becomes the released table; the program is deleted exactly when the id was unknown or held once |
| Shader.Registry.RetainStages | libs/openFrameworks/gl/ofShader.cpp:90-95 | the loop over the stages retains each stage id in order |
| Shader.Registry.ReleaseStages | libs/openFrameworks/gl/ofShader.cpp:342-348 | the loop over the stages releases each non-zero stage id in order |
| Shader.ShaderObject.constructor | libs/openFrameworks/gl/ofShader.cpp:74-78 | a new shader has program 0, is not loaded and has no stages |
| Shader.ShaderObject.Copy | libs/openFrameworks/gl/ofShader.cpp:86-97 | the copy holds the same program, flag and stages; when the original is loaded its program and every stage id are retained once more, and otherwise the tables are untouched |
| Shader.ShaderObject.Unload | libs/openFrameworks/gl/ofShader.cpp:340-358 | a loaded shader releases every non-zero stage id and its non-zero program, then holds nothing; an unloaded one keeps its ids and the tables; both end unloaded |
| Shader.ShaderObject.Assign | libs/openFrameworks/gl/ofShader.cpp:100-118 | self-assignment changes nothing; otherwise the target first unloads if it was loaded, then holds the source's ids and flag, retaining them when the source is loaded |
| Shader.ShaderObject.CheckAndCreateProgram | libs/openFrameworks/gl/ofShader.cpp:278-292 | a shader without a program takes the new program id and retains it; one that has a program keeps it and the table |
| Shader.ShaderObject.LinkProgram | libs/openFrameworks/gl/ofShader.cpp:295-318 | with no stages the flag and program are unchanged and the flag is returned; otherwise a program is made if missing and the shader is marked loaded whatever the link status |
| Shader.ShaderObject.SetupShaderFromSource | libs/openFrameworks/gl/ofShader.cpp:150-194 | after an unload and a program check, the call succeeds exactly when the shader is created, GL raises no error and it compiles; the stages are those the unload leaves (none when the shader was loaded, all of them otherwise), with the new stage stored under its type on success and untouched on failure; one entry per type is kept; the object ends unloaded |
| BaseGui.AlphaBits | addons/ofxGui/src/ofxBaseGui.cpp:139-142 | the stencil has one flag per pixel, set exactly when that pixel's alpha byte is above zero |
| BaseGui.ByteBound | addons/ofxGui/src/ofxBaseGui.cpp:141 | a group of k flags packed low bit first gives a value below 2^k, so eight of them fit the byte `cur` |
| BaseGui.BitOfByte | addons/ofxGui/src/ofxBaseGui.cpp:169 | bit j of a packed group is the j-th flag of the group: packing with `1 << shift` and reading with `>> shift & 1` agree |
| BaseGui.BitOfByteBeyond | addons/ofxGui/src/ofxBaseGui.cpp:169 | the bits above a short group read as off |
| BaseGui.Groups | addons/ofxGui/src/ofxBaseGui.cpp:144-150 | the bytes emitted for the complete groups are, one per group and in order, the packed value of its eight flags |
| BaseGui.PackFull | addons/ofxGui/src/ofxBaseGui.cpp:139-155 | the bytes of the text as written: one per complete group of eight pixels, so a trailing partial group is lost |
| BaseGui.PackAll | addons/ofxGui/src/ofxBaseGui.cpp:139-155 | the intended bytes: one per started group of eight pixels, each the packed value of its flags |
| BaseGui.PackAllBits | addons/ofxGui/src/ofxBaseGui.cpp:165-171 | reading bit `i % 8` of byte `i / 8` of the intended bytes gives back the flag of pixel i, for every pixel |
| BaseGui.PackFullBits | addons/ofxGui/src/ofxBaseGui.cpp:165-171 | the same read-back holds for the bytes as written when the pixel count is a multiple of eight |
| BaseGui.HexDigit | addons/ofxGui/src/ofxBaseGui.cpp:145 | each hexadecimal digit character reads back as the digit it was made from |
| BaseGui.Hex | addons/ofxGui/src/ofxBaseGui.cpp:145 | the hexadecimal text of a number has at least one digit, and exactly one below 16 |
| BaseGui.HexRoundTrip | addons/ofxGui/src/ofxBaseGui.cpp:145 | reading the hexadecimal text of a number gives the number back |
| BaseGui.StencilTrailingComma | addons/ofxGui/src/ofxBaseGui.cpp:139-155 | with more than eight pixels and a count that is not a multiple of eight, the text as written ends in ",}" and holds fewer bytes than there are started groups |
| BaseGui.StencilShortEmpty | addons/ofxGui/src/ofxBaseGui.cpp:139-155 | with 1 to 7 pixels no group completes, so the text as written is `{}`, with no byte and no comma, and no pixel can be read back |
| BaseGui.StencilTextsAgree | addons/ofxGui/src/ofxBaseGui.cpp:131-157 | when the pixel count is a multiple of eight, the text as written and the intended text are the same |
| BaseGui.EncodeGroups | addons/ofxGui/src/ofxBaseGui.cpp:136-154 | the loop leaves the text of the complete groups, with their commas, and the packed value of the pending partial group, with its length |
| BaseGui.SaveStencilToHex | addons/ofxGui/src/ofxBaseGui.cpp:131-157 | the method returns the text as written for the alpha stencil of the first width*height pixels |
| BaseGui.SaveStencilToHexAll | addons/ofxGui/src/ofxBaseGui.cpp:131-157 | the corrected method returns the intended text, which also emits the trailing partial group |
| BaseGui.SetColor | addons/ofxGui/src/ofxBaseGui.cpp:170 | setting a pixel's colour writes its four channels and leaves every other entry of the image untouched |
| BaseGui.LoadStencilFromHex | addons/ofxGui/src/ofxBaseGui.cpp:159-175 | after the row-by-row loop every pixel is white, opaque when its bit in the data is set and transparent otherwise |
| BaseGui.StencilRoundTrip | addons/ofxGui/src/ofxBaseGui.cpp:131-175 | for a pixel count that is a multiple of eight, loading the bytes as written gives each pixel alpha 255 exactly when its original alpha was above zero, and 0 otherwise |
| BaseGui.StencilRoundTripAll | addons/ofxGui/src/ofxBaseGui.cpp:131-175 | the same round trip holds for the intended bytes and every pixel count |
| BaseGui.Control.constructor | addons/ofxGui/src/ofxBaseGui.cpp:3-22 | a new control is inactive at frame 0 and takes the class default colours: header 64, background 0, text 255, fill 128, all opaque |
| BaseGui.Control.SetName | addons/ofxGui/src/ofxBaseGui.cpp:57-59 | the name becomes the given one and nothing else changes |
| BaseGui.Control.SetPosition | addons/ofxGui/src/ofxBaseGui.cpp:65-68 | the corner moves to the given point and the size is kept |
| BaseGui.Control.SetSize | addons/ofxGui/src/ofxBaseGui.cpp:70-73 | the size becomes the given one and the corner is kept |
| BaseGui.Control.SetShape | addons/ofxGui/src/ofxBaseGui.cpp:79-81 | the rectangle becomes exactly the given one |
| BaseGui.Control.SetHeaderBackgroundColor | addons/ofxGui/src/ofxBaseGui.cpp:115-117 | the header background colour becomes the given one and nothing else changes |
| BaseGui.Control.SetBackgroundColor | addons/ofxGui/src/ofxBaseGui.cpp:119-121 | the background colour becomes the given one and nothing else changes |
| BaseGui.Control.SetTextColor | addons/ofxGui/src/ofxBaseGui.cpp:123-125 | the text colour becomes the given one and nothing else changes |
| BaseGui.Control.SetFillColor | addons/ofxGui/src/ofxBaseGui.cpp:127-129 | the fill colour becomes the given one and nothing else changes |
| GuiGroup.ExtentAppend | addons/ofxGui/src/ofxGuiGroup.cpp:319-327 | the space taken by two runs of children, each child with its spacing, is the sum of the space of each run |
| GuiGroup.ExtentMonotone | addons/ofxGui/src/ofxGuiGroup.cpp:319-327 | with non-negative heights and spacing, the space of the first k children never exceeds that of all of them, so laid-out children never pass the group's end |
| GuiGroup.FirstIndex | addons/ofxGui/src/ofxGuiGroup.cpp:253-260 | a found position holds the name, and no earlier position does |
| GuiGroup.FirstIndexNone | addons/ofxGui/src/ofxGuiGroup.cpp:253-260 | no position is found exactly when no child has the name |
| GuiGroup.FirstAt | addons/ofxGui/src/ofxGuiGroup.cpp:254-258 | a name found at i with no match before i is the first match |
| GuiGroup.Group.constructor | addons/ofxGui/src/ofxGuiGroup.cpp:7-12 | a new group is empty and not minimized, with spacing 1 and a header of the default control height 16 |
| GuiGroup.Group.Add | addons/ofxGui/src/ofxGuiGroup.cpp:80-97 | the element is appended and placed at (0, old height); the group grows by its height plus the spacing and widens to it when it is wider; nothing else of the group changes |
| GuiGroup.Group.Clear | addons/ofxGui/src/ofxGuiGroup.cpp:145-148 | the group has no children and shrinks to its header plus the spacing |
| GuiGroup.Group.Minimize | addons/ofxGui/src/ofxGuiGroup.cpp:291-295 | the group is minimized and shrinks to its header plus the spacing |
| GuiGroup.Group.Maximize | addons/ofxGui/src/ofxGuiGroup.cpp:297-303 | the group is not minimized and grows from its current height by every child's height and spacing |
| GuiGroup.Group.SizeChangedCB | addons/ofxGui/src/ofxGuiGroup.cpp:319-327 | every child keeps its x and size; when no child appears twice, child k moves to the header, the spacing and the space of the children before it; the group ends at the last child |
| GuiGroup.Group.GetNumControls | addons/ofxGui/src/ofxGuiGroup.cpp:330-332 | the number of children |
| GuiGroup.Group.GetControlAt | addons/ofxGui/src/ofxGuiGroup.cpp:334-339 | the child at the position, or null past the end |
| GuiGroup.Group.GetControl | addons/ofxGui/src/ofxGuiGroup.cpp:253-260 | the first child with the name, or null when none has it |
| GuiGroup.Group.GetControlNames | addons/ofxGui/src/ofxGuiGroup.cpp:225-231 | the names of all children, in insertion order |
| GuiGroup.Group.GetControlType | addons/ofxGui/src/ofxGuiGroup.h:86-98 | the first child with the name is returned unchanged when it casts to the asked type (its kind is that type or one derived from it); otherwise a fresh control of that type and name is added at the end, whatever else has the name, placed under the children with the group grown by the spacing and its width kept; the existing children are not touched |
| CairoRenderer.Upto | libs/openFrameworks/graphics/ofCairoRenderer.cpp:32-35 | the triangle mode lists every vertex index once, from 0 up to n-1 in order |
| CairoRenderer.StripPairsShape | libs/openFrameworks/graphics/ofCairoRenderer.cpp:41-44 | the strip loop adds two indices per vertex from the fourth on, that vertex and the one two before it, at its own slot |
| CairoRenderer.FanTriplesShape | libs/openFrameworks/graphics/ofCairoRenderer.cpp:50-54 | the fan loop adds, for every vertex from the third to the last but one, the centre 0, that vertex and the next, at its own slot |
| CairoRenderer.TriangleCount | libs/openFrameworks/graphics/ofCairoRenderer.cpp:28-59 | with at least three vertices there are n indices for triangles, 3+2(n-3) for a strip, 3+3(n-3) for a fan, and none for any other mode |
| CairoRenderer.StripPairsBound | libs/openFrameworks/graphics/ofCairoRenderer.cpp:41-44 | every index the strip loop adds names an existing vertex |
| CairoRenderer.FanTriplesBound | libs/openFrameworks/graphics/ofCairoRenderer.cpp:50-54 | every index the fan loop adds names an existing vertex |
| CairoRenderer.TrianglesInRange | libs/openFrameworks/graphics/ofCairoRenderer.cpp:28-59 | with at least three vertices every index produced, in every mode, names an existing vertex |
| CairoRenderer.GetTriangles | libs/openFrameworks/graphics/ofCairoRenderer.cpp:28-59 | the loops build exactly the index list specified per mode, the fixed `0, 1, 2` of strips and fans included |
| CairoRenderer.WindowBound | libs/openFrameworks/graphics/ofCairoRenderer.cpp:223-240 | the pending Catmull-Rom points never number more than three between commands |
| CairoRenderer.ClearingCommand | libs/openFrameworks/graphics/ofCairoRenderer.cpp:216-276 | a line, Bezier, quadratic or arc command forgets the pending curve points |
| CairoRenderer.FourCurvePoints | libs/openFrameworks/graphics/ofCairoRenderer.cpp:223-240 | four curve points in a row draw exactly one Bezier segment, from the second to the third with control points a sixth of the way along the neighbours' chords, and keep the last three |
| CairoRenderer.RunFirst | libs/openFrameworks/graphics/ofCairoRenderer.cpp:214-278 | running the commands from i on is running command i, then the rest from the window it leaves |
| CairoRenderer.Renderer.constructor | libs/openFrameworks/graphics/ofCairoRenderer.cpp:71-83 | after setup the renderer is ready exactly when the surface was made, on page 0 with no pending curve points |
| CairoRenderer.Renderer.SetupScreen | libs/openFrameworks/graphics/ofCairoRenderer.cpp:357-371 | without a surface nothing happens; the first call only moves to page 1; later calls advance the page and emit a page break, shown when the background is cleared and copied otherwise |
| CairoRenderer.Renderer.DrawCommand | libs/openFrameworks/graphics/ofCairoRenderer.cpp:215-277 | one command updates the pending points and emits the operations of the specified step |
| CairoRenderer.Renderer.DrawNext | libs/openFrameworks/graphics/ofCairoRenderer.cpp:214-278 | one turn of the command loop keeps the operations emitted so far followed by those still to come equal to those of the whole run, and the final curve points unchanged |
| CairoRenderer.Renderer.DrawCommands | libs/openFrameworks/graphics/ofCairoRenderer.cpp:207-278 | without a surface nothing is emitted and the points are kept; otherwise the loop emits the operations of the whole command list and leaves the window the specification gives |
| ShapeUtils.CRem | libs/openFrameworks/graphics/ofShapeUtils.cpp:5 | C's remainder is smaller in size than the divisor and takes the sign of the dividend |
| ShapeUtils.LoopModIsMod | libs/openFrameworks/graphics/ofShapeUtils.cpp:4-7 | for n > 0, `loopMod(i, n)` lies in [0, n) and is congruent to i modulo n, negative i included |
| ShapeUtils.NegativeMod | libs/openFrameworks/graphics/ofShapeUtils.cpp:5-6 | for negative i the Euclidean remainder is n minus the remainder of -i, or 0, which is what moving C's negative remainder up by n gives |
| ShapeUtils.CongruentToMod | libs/openFrameworks/graphics/ofShapeUtils.cpp:4-7 | i and its remainder modulo n differ by a multiple of n |
| ShapeUtils.LoopGet | libs/openFrameworks/graphics/ofShapeUtils.cpp:9-12 | on a non-empty vector `loopGet` never indexes out of range and returns the element at i modulo the size |
| ShapeUtils.WeightsShape | libs/openFrameworks/graphics/ofShapeUtils.cpp:18-26 | the weight list has one entry more than the side weights pushed so far: the centre weight 1, then the mapped weight of each distance |
| ShapeUtils.WeightsStep | libs/openFrameworks/graphics/ofShapeUtils.cpp:22-26 | each pass of the weight loop adds its new weight to the running sum of side weights |
| ShapeUtils.SmoothingWeights | libs/openFrameworks/graphics/ofShapeUtils.cpp:18-26 | the loop yields size+1 weights (just the centre one when size is not positive), centre weight 1, the farthest weight equal to the smoothing amount, and their side sum |
| ShapeUtils.NeighbourIndices | libs/openFrameworks/graphics/ofShapeUtils.cpp:33-36 | with a smoothing size at most n, both neighbour positions `(n+i-j)%n` and `(i+j)%n` lie in [0, n), C's remainder agreeing with wrap-around indexing |
| ShapeUtils.SmoothingNothing | libs/openFrameworks/graphics/ofShapeUtils.cpp:14-43 | smoothing with no side weights leaves every vertex where it was |
| ShapeUtils.NeighbourSumConstant | libs/openFrameworks/graphics/ofShapeUtils.cpp:33-39 | when all vertices are the same point, the neighbour sum is that point times twice the sum of the weights used |
| ShapeUtils.Normalised | libs/openFrameworks/graphics/ofShapeUtils.cpp:40-41 | adding the vertex to its weighted neighbours and multiplying by the normaliser gives the point back when all the points agree |
| ShapeUtils.SmoothingConstant | libs/openFrameworks/graphics/ofShapeUtils.cpp:14-43 | smoothing a polyline whose vertices are all one point leaves every vertex at that point: the weights are normalised |
| ShapeUtils.SmoothVertex | libs/openFrameworks/graphics/ofShapeUtils.cpp:32-41 | the inner loop computes exactly the smoothed value of vertex i from the original vertices |
| ShapeUtils.SmoothPolyline | libs/openFrameworks/graphics/ofShapeUtils.cpp:14-43 | the vertex count is kept, every vertex becomes its smoothed value computed from the original polyline, the polyline is marked changed when it has vertices, and nothing else changes |
| ShapeUtils.SampledSnoc | libs/openFrameworks/graphics/ofShapeUtils.cpp:59-65 | appending a sample placed on its segment keeps every earlier sample where it was |
| ShapeUtils.SampleHere | libs/openFrameworks/graphics/ofShapeUtils.cpp:59-63 | a step whose distance falls within segment i, past all earlier segments, is drawn on segment i at the fraction of its length the source computes |
| ShapeUtils.StepBound | libs/openFrameworks/graphics/ofShapeUtils.cpp:59 | with a positive spacing the step count inside the length is bounded, so the sampling loop ends |
| ShapeUtils.SampleSegment | libs/openFrameworks/graphics/ofShapeUtils.cpp:59-65 | the inner loop appends one sample per multiple of the spacing up to the running length, each on segment i, and stops at the first step past it |
| ShapeUtils.ResamplePolyline | libs/openFrameworks/graphics/ofShapeUtils.cpp:45-67 | below two vertices the result is empty; otherwise there is exactly one sample per multiple of the spacing up to the total length, each interpolated on the segment it falls in; the result is open and marked changed |
| Polyline.SubsequenceSnocBoth | libs/openFrameworks/graphics/ofPolyline.cpp:741 | keeping the next vertex after a kept prefix extends the subsequence |
| Polyline.SubsequenceSnocRight | libs/openFrameworks/graphics/ofPolyline.cpp:739 | skipping a vertex keeps the subsequence |
| Polyline.SubsequenceLength | libs/openFrameworks/graphics/ofPolyline.cpp:756-760 | a subsequence is never longer than the sequence it is taken from |
| Polyline.SubsequenceTrans | libs/openFrameworks/graphics/ofPolyline.cpp:736-760 | a subsequence of the reduced vertices is a subsequence of the original vertices |
| Polyline.FilterShape | libs/openFrameworks/graphics/ofPolyline.cpp:751-753 | copying the marked vertices gives a subsequence, which starts with the first vertex and ends with the last when those are marked |
| Polyline.OpenSumReverse | libs/openFrameworks/graphics/ofPolyline.cpp:390-392 | the shoelace terms of the reversed chain add up to minus those of the chain |
| Polyline.AreaReversed | libs/openFrameworks/graphics/ofPolyline.cpp:386-395 | reversing the vertex order negates the signed area, closing edge included |
| Polyline.ClampedIndex | libs/openFrameworks/graphics/ofPolyline.cpp:872-873 | the clamped index always names a vertex: an index in range is kept, one below range goes to the last vertex of a closed polyline and the first of an open one, and one above range to the first of a closed and the last of an open one |
| Polyline.NextMark | libs/openFrameworks/graphics/ofPolyline.cpp:751-753 | the next kept vertex after i lies after i and no later than k |
| Polyline.PrevMark | libs/openFrameworks/graphics/ofPolyline.cpp:751-753 | the last kept vertex before i lies before i and no earlier than j |
| Polyline.NoMarksBefore | libs/openFrameworks/graphics/ofPolyline.cpp:716 | with nothing marked strictly between j and i, the vertex kept before i is j |
| Polyline.NoMarksAfter | libs/openFrameworks/graphics/ofPolyline.cpp:716 | with nothing marked strictly between i and k, the vertex kept after i is k |
| Polyline.CombineHalves | libs/openFrameworks/graphics/ofPolyline.cpp:711-714 | when both halves split at a marked vertex are within the tolerance, so is the whole range |
| Polyline.Farthest | libs/openFrameworks/graphics/ofPolyline.cpp:675-707 | the scan finds the largest squared distance of the inner vertices to the chord, with its vertex, or j and 0 when every inner vertex lies on the chord |
| Polyline.SimplifyDP | libs/openFrameworks/graphics/ofPolyline.cpp:670-718 | the recursion only sets markers strictly between j and k, only to 1, and leaves every unmarked vertex of the range within the tolerance of the chord between the kept vertices around it |
| Polyline.KeepStep | libs/openFrameworks/graphics/ofPolyline.cpp:741-744 | appending vertex i after the last kept vertex keeps the reduced list a subsequence of the vertices up to i |
| Polyline.SpreadSnoc | libs/openFrameworks/graphics/ofPolyline.cpp:739-742 | a vertex kept because it lies at least the tolerance from the last kept one keeps the kept vertices spread |
| Polyline.SpreadPrefix | libs/openFrameworks/graphics/ofPolyline.cpp:738-744 | dropping the last kept vertex keeps the rest spread |
| Polyline.Polyline.constructor | libs/openFrameworks/graphics/ofPolyline.cpp:5-7 | a new polyline is empty, open and marked changed |
| Polyline.Polyline.FromVertices | libs/openFrameworks/graphics/ofPolyline.cpp:10-13 | a polyline built from vertices holds exactly them, open and marked changed |
| Polyline.Polyline.Clear | libs/openFrameworks/graphics/ofPolyline.cpp:27-32 | no vertices are left, the polyline is open and marked changed |
| Polyline.Polyline.AddVertex | libs/openFrameworks/graphics/ofPolyline.cpp:35-38 | the vertex is appended after the existing ones, and the polyline is marked changed |
| Polyline.Polyline.AddVertices | libs/openFrameworks/graphics/ofPolyline.cpp:47-51 | the vertices are appended in order after the existing ones, and the polyline is marked changed |
| Polyline.Polyline.InsertVertex | libs/openFrameworks/graphics/ofPolyline.cpp:71-75 | the vertex lands at the index, the ones before stay and the ones after move one place right; the polyline is marked changed |
| Polyline.Polyline.Size | libs/openFrameworks/graphics/ofPolyline.cpp:84-86 | the number of vertices |
| Polyline.Polyline.SetVertex | libs/openFrameworks/graphics/ofPolyline.cpp:94-97 | writing through the vertex operator replaces that vertex only and marks the polyline changed |
| Polyline.Polyline.Resize | libs/openFrameworks/graphics/ofPolyline.cpp:100-103 | the polyline has the new size, keeps its first vertices, pads with the origin and is marked changed |
| Polyline.Polyline.SetClosed | libs/openFrameworks/graphics/ofPolyline.cpp:106-109 | the closed flag takes the value and the polyline is marked changed |
| Polyline.Polyline.IsClosed | libs/openFrameworks/graphics/ofPolyline.cpp:112-114 | the closed flag |
| Polyline.Polyline.Close | libs/openFrameworks/graphics/ofPolyline.cpp:117-119 | the polyline is closed and, unlike `setClosed`, the dirty flag is not touched |
| Polyline.Polyline.HasChanged | libs/openFrameworks/graphics/ofPolyline.cpp:122-129 | the call returns the dirty flag and clears it, so a second call with no change in between returns false |
| Polyline.Polyline.GetArea | libs/openFrameworks/graphics/ofPolyline.cpp:386-395 | the loop returns the signed shoelace area of the closed polygon, 0 below two vertices |
| Polyline.Polyline.GetBoundingBox | libs/openFrameworks/graphics/ofPolyline.cpp:414-442 | every vertex lies inside the box and each of its four sides passes through a vertex; an empty polyline gives the empty box at the origin |
| Polyline.Polyline.GetAngleAtIndex | libs/openFrameworks/graphics/ofPolyline.cpp:868-875 | below two vertices the result is 0 and nothing changes; otherwise a dirty cache is refreshed (clearing the flag) and the angle at the clamped index is read |
| Polyline.Polyline.ReduceVertices | libs/openFrameworks/graphics/ofPolyline.cpp:736-744 | the loop gives exactly the reduced vertices of the reference definition (each vertex dropped when it is closer than the tolerance to the last kept one, the last vertex added unless kept); they form a subsequence that starts with the first vertex and ends with the last, and whose kept vertices before the last are each at least the tolerance from the one before |
| Polyline.Polyline.StartReducing | libs/openFrameworks/graphics/ofPolyline.cpp:737-738 | vertex reduction starts with the first vertex kept and nothing else looked at |
| Polyline.Polyline.ReduceStep | libs/openFrameworks/graphics/ofPolyline.cpp:738-742 | vertex i is kept, and becomes the last kept one, exactly when it is at least the tolerance from the last kept vertex; the reduction so far still agrees with the reference definition |
| Polyline.Polyline.KeepLast | libs/openFrameworks/graphics/ofPolyline.cpp:744 | finishing with the last vertex unless it was the last kept gives exactly the reduced vertices of the reference definition, starting with the first vertex and ending with the last |
| Polyline.Polyline.CopyMarked | libs/openFrameworks/graphics/ofPolyline.cpp:750-753 | the copy loop gives exactly the marked reduced vertices, in order |
| Polyline.Polyline.Simplify | libs/openFrameworks/graphics/ofPolyline.cpp:721-762 | stage 1 gives exactly the reduced vertices of the reference definition; the result is a subsequence of those, and so of the old vertices, no longer than them, keeping the first and the last; every reduced vertex it drops lies within the tolerance of the chord between the kept vertices around it |
| Polyline.SubsequenceExtend | libs/openFrameworks/graphics/ofPolyline.cpp:738-744 | a subsequence of a prefix of the vertices stays one of every longer prefix |
| Polyline.Reverse | libs/openFrameworks/graphics/ofPolyline.cpp:386-395 | the reversed vertex list has the same length and holds the vertices in the opposite order |
| Polyline.OpenSumCons | libs/openFrameworks/graphics/ofPolyline.cpp:390-392 | the shoelace sum of an open chain splits into its first edge plus the rest |
| Polyline.NextMarkStops | libs/openFrameworks/graphics/ofPolyline.cpp:751-753 | the next kept vertex is found before any marked vertex c, whatever lies beyond c |
| Polyline.PrevMarkStops | libs/openFrameworks/graphics/ofPolyline.cpp:751-753 | the previous kept vertex is found after any marked vertex c, whatever lies before c |
| Polyline.PrevMarkFrame | libs/openFrameworks/graphics/ofPolyline.cpp:713-714 | the previous kept vertex depends only on the markers in its range, so a recursive call that writes elsewhere leaves it alone |
| Polyline.NextMarkFrame | libs/openFrameworks/graphics/ofPolyline.cpp:713-714 | the next kept vertex depends only on the markers in its range, so a recursive call that writes elsewhere leaves it alone |
| GLRenderer.Bind | libs/openFrameworks/gl/ofGLRenderer.cpp:471-485 | binding the framebuffer that is already current changes nothing; binding another saves the current one on top of the stack and makes the new one current |
| GLRenderer.Unbind | libs/openFrameworks/gl/ofGLRenderer.cpp:508-518 | unbinding with an empty stack falls back to the default framebuffer; otherwise the top of the stack becomes current and is popped |
| GLRenderer.BindUnbind | libs/openFrameworks/gl/ofGLRenderer.cpp:471-518 | unbinding right after binding a different framebuffer restores the state before the bind |
| GLRenderer.UnbindTimesSucc | libs/openFrameworks/gl/ofGLRenderer.cpp:508-518 | n + 1 unbinds are one unbind followed by n more |
| GLRenderer.NestedBindsRestore | libs/openFrameworks/gl/ofGLRenderer.cpp:471-518 | a chain of binds, each to a framebuffer other than the current one, undone by as many unbinds, restores the binding state |
| GLRenderer.PushStyle | libs/openFrameworks/gl/ofGLRenderer.cpp:1258-1266 | the current style goes on the back of the history; past the maximum the oldest style is dropped, so the history never grows past the maximum |
| GLRenderer.PopStyleAsWritten | libs/openFrameworks/gl/ofGLRenderer.cpp:1268-1273 | as written, a pop applies the oldest saved style but removes the newest; with no history it changes nothing |
| GLRenderer.PopStyleAsWrittenSkipsLatest | libs/openFrameworks/gl/ofGLRenderer.cpp:1268-1273 | after a push onto a non-empty history whose oldest entry differs from the pushed style, the pop as written does not give back the pushed style |
| GLRenderer.PopStyle | libs/openFrameworks/gl/ofGLRenderer.cpp:1268-1273 | the corrected pop applies and removes the newest saved style; with no history it changes nothing |
| GLRenderer.PushPopRestores | libs/openFrameworks/gl/ofGLRenderer.cpp:1258-1273 | below the maximum, the corrected pop after a push restores the pushed style and the history before the push |
| GLRenderer.HexBytes | libs/openFrameworks/gl/ofGLRenderer.cpp:1032-1037 | the three channels taken from a hex colour are bytes and recompose its low 24 bits |
| GLRenderer.HexModUnique | libs/openFrameworks/gl/ofGLRenderer.cpp:1032-1037 | the low 24 bits of a hex colour are its remainder in any decomposition with a 24-bit remainder |
| GLRenderer.HexColorRoundTrip | libs/openFrameworks/gl/ofGLRenderer.cpp:1032-1037 | packing three bytes into a hex colour and unpacking it gives the bytes back |
| GLRenderer.Renderer.constructor | libs/openFrameworks/gl/ofGLRenderer.cpp:19-33 | a new renderer has framebuffer 0 current and as default, empty framebuffer and style stacks, automatic background and normals and lighting off |
| GLRenderer.Renderer.StartRender | libs/openFrameworks/gl/ofGLRenderer.cpp:41-66 | starting a frame makes the default framebuffer current and pushes it on the framebuffer stack |
| GLRenderer.Renderer.FinishRender | libs/openFrameworks/gl/ofGLRenderer.cpp:68-71 | finishing a frame empties the framebuffer stack |
| GLRenderer.Renderer.BindFbo | libs/openFrameworks/gl/ofGLRenderer.cpp:471-485 | the binding state becomes what the bind function gives |
| GLRenderer.Renderer.UnbindFbo | libs/openFrameworks/gl/ofGLRenderer.cpp:508-518 | the binding state becomes what the unbind function gives |
| GLRenderer.Renderer.SetColorRGB | libs/openFrameworks/gl/ofGLRenderer.cpp:1014-1017 | only the current colour changes, to the channels with full alpha |
| GLRenderer.Renderer.SetColor | libs/openFrameworks/gl/ofGLRenderer.cpp:1021-1024 | only the current colour changes, to the four channels |
| GLRenderer.Renderer.SetHexColor | libs/openFrameworks/gl/ofGLRenderer.cpp:1032-1037 | the colour becomes the three bytes of the hex value with full alpha, and those bytes recompose its low 24 bits |
| GLRenderer.Renderer.SetBackgroundColor | libs/openFrameworks/gl/ofGLRenderer.cpp:1079-1082 | only the background colour of the style changes |
| GLRenderer.Renderer.SetFillMode | libs/openFrameworks/gl/ofGLRenderer.cpp:1106-1123 | the fill flag follows the mode, the path is filled with no stroke when filling and outlined with the line width otherwise, and reading the fill mode back gives the mode set |
| GLRenderer.Renderer.GetFillMode | libs/openFrameworks/gl/ofGLRenderer.cpp:1126-1132 | the mode is filled exactly when the style's fill flag is set |
| GLRenderer.Renderer.SetLineWidth | libs/openFrameworks/gl/ofGLRenderer.cpp:1145-1151 | the style takes the width; the path stroke follows only when drawing outlines |
| GLRenderer.Renderer.SetRectMode | libs/openFrameworks/gl/ofGLRenderer.cpp:1135-1137 | only the rectangle mode of the style changes |
| GLRenderer.Renderer.SetPolyMode | libs/openFrameworks/gl/ofGLRenderer.cpp:826-829 | the style's polygon mode and the path's winding mode both take the mode |
| GLRenderer.Renderer.SetCurveResolution | libs/openFrameworks/gl/ofGLRenderer.cpp:1318-1321 | the style's and the path's curve resolution both take the value |
| GLRenderer.Renderer.SetBlendMode | libs/openFrameworks/gl/ofGLRenderer.cpp:1191-1248 | only the blending mode of the style changes |
| GLRenderer.Renderer.SetStyle | libs/openFrameworks/gl/ofGLRenderer.cpp:1275-1316 | the style becomes the given one and the path takes its fill, stroke, curve resolution and winding mode from it |
| GLRenderer.Renderer.PushStyleOnto | libs/openFrameworks/gl/ofGLRenderer.cpp:1258-1266 | the history becomes the push of the current style, and stays within the maximum |
| GLRenderer.Renderer.PopStyleOff | libs/openFrameworks/gl/ofGLRenderer.cpp:1268-1273 | the style and history become what the pop as written gives, and the path takes the settings of the applied (oldest) style; an empty history changes nothing |
| GLRenderer.Renderer.EnableTextureTarget | libs/openFrameworks/gl/ofGLRenderer.cpp:1657-1663 | the texture location is added to the enabled set |
| GLRenderer.Renderer.DisableTextureTarget | libs/openFrameworks/gl/ofGLRenderer.cpp:1666-1672 | the texture location is removed from the enabled set |
| ProgrammableGLRenderer.WithMode | libs/openFrameworks/gl/ofProgrammableGLRenderer.cpp:868-870 | switching the matrix mode changes no matrix and no stack |
| ProgrammableGLRenderer.PushMatrix | libs/openFrameworks/gl/ofProgrammableGLRenderer.cpp:752-764 | the matrix of the current mode is saved on top of that mode's stack; the other stacks and every matrix stay |
| ProgrammableGLRenderer.PopMatrix | libs/openFrameworks/gl/ofProgrammableGLRenderer.cpp:767-785 | the top of the current mode's stack becomes that mode's matrix and is removed; the other modes are untouched |
| ProgrammableGLRenderer.PushPopRestores | libs/openFrameworks/gl/ofProgrammableGLRenderer.cpp:752-785 | a pop right after a push gives back the whole matrix state |
| ProgrammableGLRenderer.PushViewMatrices | libs/openFrameworks/gl/ofProgrammableGLRenderer.cpp:451-459 | the projection and the oriented model-view matrix are pushed on their stacks, the texture stack and every matrix stay and the mode is restored |
| ProgrammableGLRenderer.PopViewMatrices | libs/openFrameworks/gl/ofProgrammableGLRenderer.cpp:462-474 | the projection and the oriented model-view matrix are popped from their stacks, the texture matrix and stack stay and the mode is restored |
| ProgrammableGLRenderer.PushPopViewRestores | libs/openFrameworks/gl/ofProgrammableGLRenderer.cpp:451-474 | popping the view right after pushing it gives back the whole matrix state |
| ProgrammableGLRenderer.LoadMatrix | libs/openFrameworks/gl/ofProgrammableGLRenderer.cpp:880-897 | in model-view mode the matrix becomes the model view and the orientation times it the oriented model view; in the other modes it becomes that mode's matrix; stacks and other modes stay |
| ProgrammableGLRenderer.LoadMatrixIdentityOrientation | libs/openFrameworks/gl/ofProgrammableGLRenderer.cpp:880-887 | with an identity orientation the loaded matrix is exactly the current matrix of the mode |
| ProgrammableGLRenderer.ViewportRect | libs/openFrameworks/gl/ofProgrammableGLRenderer.cpp:482-495 | a zero width or height takes the window's; with the y axis inverted the rectangle's top plus its height plus the given y equals the framebuffer height, or the window height when no framebuffer is bound |
| ProgrammableGLRenderer.InvertYTwice | libs/openFrameworks/gl/ofProgrammableGLRenderer.cpp:482-495 | inverting the y axis of a rectangle with non-zero sides twice gives it back |
| ProgrammableGLRenderer.ViewportRestores | libs/openFrameworks/gl/ofProgrammableGLRenderer.cpp:462-467 | restoring a saved rectangle without inversion gives it back exactly when a zero side would be replaced by a zero window side |
| ProgrammableGLRenderer.ColorOf | libs/openFrameworks/gl/ofProgrammableGLRenderer.cpp:973-976 | each channel is the integer channel divided by 255 |
| ProgrammableGLRenderer.ColorOfInUnitRange | libs/openFrameworks/gl/ofProgrammableGLRenderer.cpp:973-976 | byte channels give float channels between 0 and 1 |
| ProgrammableGLRenderer.Renderer.constructor | libs/openFrameworks/gl/ofProgrammableGLRenderer.cpp:120-150 | a new renderer is in model-view mode with identity matrices, empty stacks and viewport history, no framebuffer and automatic background |
| ProgrammableGLRenderer.Renderer.FinishRender | libs/openFrameworks/gl/ofProgrammableGLRenderer.cpp:176-180 | finishing a frame leaves the matrix state and its stacks as they were |
| ProgrammableGLRenderer.Renderer.SetCurrentFbo | libs/openFrameworks/gl/ofProgrammableGLRenderer.cpp:446-448 | the current framebuffer becomes the given one |
| ProgrammableGLRenderer.Renderer.SetMatrixMode | libs/openFrameworks/gl/ofProgrammableGLRenderer.cpp:868-870 | the state becomes the mode switch of the old state |
| ProgrammableGLRenderer.Renderer.PushMatrixOnto | libs/openFrameworks/gl/ofProgrammableGLRenderer.cpp:752-764 | the state becomes the push of the old state |
| ProgrammableGLRenderer.Renderer.PopMatrixOff | libs/openFrameworks/gl/ofProgrammableGLRenderer.cpp:767-785 | with a non-empty stack for the mode, the state becomes the pop of the old state |
| ProgrammableGLRenderer.Renderer.LoadMatrixInto | libs/openFrameworks/gl/ofProgrammableGLRenderer.cpp:880-897 | the state becomes the load of the matrix into the old state |
| ProgrammableGLRenderer.Renderer.LoadIdentityMatrix | libs/openFrameworks/gl/ofProgrammableGLRenderer.cpp:873-877 | the state becomes the load of the identity into the old state |
| ProgrammableGLRenderer.Renderer.Viewport | libs/openFrameworks/gl/ofProgrammableGLRenderer.cpp:482-495 | the current viewport becomes the rectangle the viewport function gives for the bound framebuffer |
| ProgrammableGLRenderer.Renderer.PushView | libs/openFrameworks/gl/ofProgrammableGLRenderer.cpp:451-459 | the viewport is saved on the history and the state becomes the view push of the old state |
| ProgrammableGLRenderer.Renderer.PopView | libs/openFrameworks/gl/ofProgrammableGLRenderer.cpp:462-474 | with history, the newest saved viewport is restored without inversion and removed; without, the viewport stays; either way the state becomes the view pop of the old state |
| ProgrammableGLRenderer.Renderer.SetColorRGBA | libs/openFrameworks/gl/ofProgrammableGLRenderer.cpp:973-976 | the colour becomes the four channels divided by 255 |
| ProgrammableGLRenderer.Renderer.SetColorRGB | libs/openFrameworks/gl/ofProgrammableGLRenderer.cpp:968-970 | the colour becomes the three channels divided by 255 with full alpha |
| ProgrammableGLRenderer.Renderer.SetColorWithAlpha | libs/openFrameworks/gl/ofProgrammableGLRenderer.cpp:963-965 | the colour becomes the colour's channels with the given alpha, divided by 255 |
| ProgrammableGLRenderer.Renderer.SetColorGray | libs/openFrameworks/gl/ofProgrammableGLRenderer.cpp:979-981 | all three channels take the grey level, with full alpha |
| ProgrammableGLRenderer.Renderer.SetHexColor | libs/openFrameworks/gl/ofProgrammableGLRenderer.cpp:984-989 | the colour becomes the three bytes of the hex value over 255 with full alpha, each in the unit range |
| Vbo.Vbo.constructor | libs/openFrameworks/3d/ofVbo.cpp:13-26 | a new buffer object uses no attribute, is not allocated and has every usage at -1 |
| Vbo.Vbo.SetVertexData | libs/openFrameworks/3d/ofVbo.cpp:34-49 | null data changes nothing; otherwise vertices are in use, the object is allocated, the usage is stored and a buffer id is generated only the first time |
| Vbo.Vbo.SetColorData | libs/openFrameworks/3d/ofVbo.cpp:52-65 | null data changes nothing; otherwise colours are in use with the usage stored and a buffer id generated only the first time; allocation is untouched |
| Vbo.Vbo.SetNormalData | libs/openFrameworks/3d/ofVbo.cpp:68-81 | null data changes nothing; otherwise normals are in use with the usage stored and a buffer id generated only the first time; allocation is untouched |
| Vbo.Vbo.SetTexCoordData | libs/openFrameworks/3d/ofVbo.cpp:84-97 | null data changes nothing; otherwise texture coordinates are in use with the usage stored and a buffer id generated only the first time; allocation is untouched |
| Vbo.Vbo.SetIndexData | libs/openFrameworks/3d/ofVbo.cpp:101-115 | null data changes nothing; otherwise indices are in use and a buffer id is generated only the first time |
| Vbo.Vbo.Bind | libs/openFrameworks/3d/ofVbo.cpp:245-274 | exactly the vertex attributes in use are enabled, indices never, so at most four, in the order vertices, colours, normals, texture coordinates |
| Vbo.Vbo.Draw | libs/openFrameworks/3d/ofVbo.cpp:296-302 | the object draws exactly when it is allocated, binding exactly the vertex attributes in use in bind order, and binds nothing otherwise |
| Vbo.Vbo.DrawElements | libs/openFrameworks/3d/ofVbo.cpp:305-312 | the object draws exactly when it is allocated, and then with its index buffer |
| Vbo.Vbo.Clear | libs/openFrameworks/3d/ofVbo.cpp:315-344 | no vertex attribute is in use and their four ids are 0; indices and allocation are untouched |
| Vec4.Index | libs/openFrameworks/math/ofVec4f.h:177-185 | indices 1 to 3 read y, z and w; index 0 and every index out of range read x |
| Vec4.WithIndex | libs/openFrameworks/math/ofVec4f.h:177-185 | writing through an index changes the component that index reads (x when out of range) and no other |
| Vec4.PlusMinus | libs/openFrameworks/math/ofVec4f.h:213-254 | subtracting a vector undoes adding it, in either order, and so does subtracting any scalar after adding it, and the reverse |
| Vec4.PlusLaws | libs/openFrameworks/math/ofVec4f.h:213-215 | vector addition is commutative and associative, and the zero vector changes nothing |
| Vec4.ScalarIsSplat | libs/openFrameworks/math/ofVec4f.h:225-263 | adding, subtracting or multiplying by a scalar acts like the vector with that scalar in all four components, and negation is scaling by -1 |
| Vec4.MulLaws | libs/openFrameworks/math/ofVec4f.h:269-283 | component-wise multiplication is commutative, scaling by one changes nothing, and scaling distributes over addition |
| Vec4.DotLaws | libs/openFrameworks/math/ofVec4f.h:526-528 | the dot product is symmetric and linear in its first argument |
| Vec4.InterpolatedIsWeighted | libs/openFrameworks/math/ofVec4f.h:387-392 | interpolation is the sum of the two points weighted by 1 - p and p |
| Vec4.SumOfAppend | libs/openFrameworks/math/ofVec4f.h:424-434 | the sum of two runs of points, one after the other, is the sum of their sums |
| Vec4.NegNeg | libs/openFrameworks/math/ofVec4f.h:237-263 | negating twice gives the vector back, and adding a negated vector is subtracting it |
| Vec4.Div | libs/openFrameworks/math/ofVec4f.h:293-295 | each component is divided by the divisor's matching component, and kept when that component is zero |
| Vec4.DivScalar | libs/openFrameworks/math/ofVec4f.h:305-309 | dividing by zero gives the vector back; otherwise multiplying the result by the scalar gives the vector |
| Vec4.DivUndoesMul | libs/openFrameworks/math/ofVec4f.h:269-295 | dividing by a vector with no zero component undoes multiplying by it |
| Vec4.InterpolatedEnds | libs/openFrameworks/math/ofVec4f.h:379-392 | interpolation at 0 gives this point, at 1 the other point, and between equal points the point itself |
| Vec4.MiddleIsHalfway | libs/openFrameworks/math/ofVec4f.h:406-409 | the middle is the interpolation at one half and does not depend on the order of the points |
| Vec4.SquareLength | libs/openFrameworks/math/ofVec4f.h:517-519 | the squared length is never negative |
| Vec4.SquareDistance | libs/openFrameworks/math/ofVec4f.h:366-372 | the squared distance is never negative |
| Vec4.SquareMeasures | libs/openFrameworks/math/ofVec4f.h:366-372 | the squared length is the dot product with itself, the squared distance is the squared length of the difference, symmetric and zero from a point to itself |
| Vec4.SumOfCopies | libs/openFrameworks/math/ofVec4f.h:429-434 | the sum of n copies of a point is the point times n |
| Vec4.AverageOfCopies | libs/openFrameworks/math/ofVec4f.h:424-440 | the average of copies of one point is that point |
| Vec4.Vec4f.constructor | libs/openFrameworks/math/ofVec4f.h:150-158 | a new vector holds the four given components |
| Vec4.Vec4f.Set | libs/openFrameworks/math/ofVec4f.h:163-175 | the vector takes the four given components |
| Vec4.Vec4f.SetIndex | libs/openFrameworks/math/ofVec4f.h:177-185 | assigning through an index changes the component the index reads and no other |
| Vec4.Vec4f.PlusAssign | libs/openFrameworks/math/ofVec4f.h:217-222 | the vector becomes its sum with the other |
| Vec4.Vec4f.DivAssign | libs/openFrameworks/math/ofVec4f.h:297-303 | the vector becomes its component-wise quotient, each component kept where the divisor's is zero |
| Vec4.Vec4f.DivAssignScalar | libs/openFrameworks/math/ofVec4f.h:311-319 | the vector becomes its quotient by the scalar, and stays when the scalar is zero |
| Vec4.Vec4f.Interpolate | libs/openFrameworks/math/ofVec4f.h:394-400 | the vector becomes its interpolation towards the point |
| Vec4.Vec4f.Middle | libs/openFrameworks/math/ofVec4f.h:411-417 | the vector becomes its middle with the point |
| Vec4.Vec4f.AverageOf | libs/openFrameworks/math/ofVec4f.h:424-440 | the accumulation loop leaves the vector holding the sum of the first num points divided by num |
| Matrix4x4.FromRowMajor | libs/openFrameworks/math/ofMatrix4x4.h:87-91 | the sixteen positional values land in row-major order: value a(i)(j) is entry (i, j) |
| Matrix4x4.TransposedOf | libs/openFrameworks/math/ofMatrix4x4.h:733-740 | entry (i, j) of the transpose is entry (j, i) of the matrix |
| Matrix4x4.SameEntries | libs/openFrameworks/math/ofMatrix4x4.h:52-57 | two matrices with equal entries are equal |
| Matrix4x4.TransposeInvolution | libs/openFrameworks/math/ofMatrix4x4.h:733-740 | transposing twice gives the matrix back |
| Matrix4x4.IsIdentity | libs/openFrameworks/math/ofMatrix4x4.h:651-656 | the test holds exactly when the diagonal entries are 1 and all others 0 |
| Matrix4x4.GetTranslation | libs/openFrameworks/math/ofMatrix4x4.h:663-665 | the translation is the first three entries of the bottom row |
| Matrix4x4.PreMultIsTransposedPostMult | libs/openFrameworks/math/ofMatrix4x4.h:800-814 | multiplying a row vector by the matrix is multiplying the transpose by the vector as a column |
| Matrix4x4.IdentityMult | libs/openFrameworks/math/ofMatrix4x4.h:800-814 | the identity leaves every vector unchanged, from either side |
| Matrix4x4.Transform3x3PreBlock | libs/openFrameworks/math/ofMatrix4x4.h:818-822 | the row-vector 3x3 transform depends only on the upper-left 3x3 block |
| Matrix4x4.Transform3x3PostBlock | libs/openFrameworks/math/ofMatrix4x4.h:826-830 | the column-vector 3x3 transform depends only on the upper-left 3x3 block |
| Matrix4x4.Transform3x3Transposed | libs/openFrameworks/math/ofMatrix4x4.h:818-830 | the row-vector 3x3 transform by a matrix is the column-vector 3x3 transform by its transpose |
| Matrix4x4.Transform3x3IsPreMult | libs/openFrameworks/math/ofMatrix4x4.h:809-822 | the row-vector 3x3 transform is the full row-vector product with w = 0, cut to three components |
| Matrix4x4.Identity | libs/openFrameworks/math/ofMatrix4x4.h:675-679 | the identity matrix passes the identity test |
| Matrix4x4.Product | libs/openFrameworks/math/ofMatrix4x4.h:436-437 | each entry of the product is the dot product of a row of the left factor with a column of the right one |
| Matrix4x4.IdentityProduct | libs/openFrameworks/math/ofMatrix4x4.h:436-437 | multiplying by the identity on the left changes nothing |
| Matrix4x4.TranslatedIsProduct | libs/openFrameworks/math/ofMatrix4x4.h:832-858 | the in-place translate updates give the entries of the translation matrix times the matrix (pre) and the matrix times the translation matrix (post) |
| Matrix4x4.ScaledIsProduct | libs/openFrameworks/math/ofMatrix4x4.h:883-915 | the in-place scale updates give the entries of the scaling matrix times the matrix (pre) and the matrix times the scaling matrix (post) |
| Matrix4x4.NeutralUpdates | libs/openFrameworks/math/ofMatrix4x4.h:834-915 | translating by the origin or scaling by one leaves every entry unchanged |
| Matrix4x4.PreTranslatedFull | libs/openFrameworks/math/ofMatrix4x4.h:834-844 | after the three loop steps the bottom row holds the pre-translated entries |
| Matrix4x4.TranslationScalingAct | libs/openFrameworks/math/ofMatrix4x4.h:832-915 | the translation matrix moves a point (w = 1) by its offset and leaves a direction (w = 0) alone; the scaling matrix multiplies each coordinate by its factor |
| Matrix4x4.ColumnAddedAt | libs/openFrameworks/math/ofMatrix4x4.h:853-856 | after the column update, entry (r, c) gains tmp times entry (r, 3) and every other entry stays |
| Matrix4x4.PostTranslatedStep | libs/openFrameworks/math/ofMatrix4x4.h:849-857 | one step of the post-translate loop, skipped for a zero component, extends the columns already translated by one |
| Matrix4x4.Matrix.Entries | libs/openFrameworks/math/ofMatrix4x4.h:52-57 | the storage read out is always sixteen values |
| Matrix4x4.Matrix.constructor | libs/openFrameworks/math/ofMatrix4x4.h:78-80 | a new matrix holds the sixteen given values in fresh storage |
| Matrix4x4.Matrix.Set | libs/openFrameworks/math/ofMatrix4x4.h:641-644 | the matrix takes the first sixteen values of the pointer |
| Matrix4x4.Matrix.Assign | libs/openFrameworks/math/ofMatrix4x4.h:631-635 | the matrix takes the right-hand side's entries, self-assignment included |
| Matrix4x4.Matrix.PreMultTranslate | libs/openFrameworks/math/ofMatrix4x4.h:834-844 | every entry becomes the pre-translated one |
| Matrix4x4.Matrix.PostMultTranslate | libs/openFrameworks/math/ofMatrix4x4.h:848-858 | every entry becomes the post-translated one |
| Matrix4x4.Matrix.PostMultTranslateComponents | libs/openFrameworks/math/ofMatrix4x4.h:862-881 | the positional version gives the same entries as translating by the point of its three components |
| Matrix4x4.Matrix.AddToColumn | libs/openFrameworks/math/ofMatrix4x4.h:853-856 | the storage becomes the column update of the old storage |
| Matrix4x4.Matrix.PreMultScale | libs/openFrameworks/math/ofMatrix4x4.h:885-898 | every entry becomes the pre-scaled one: the first three rows multiplied by the matching component |
| Matrix4x4.Matrix.PostMultScale | libs/openFrameworks/math/ofMatrix4x4.h:902-915 | every entry becomes the post-scaled one: the first three columns multiplied by the matching component |
| CvFloatImage.ScaledPixel | src/ofxCvFloatImage.cpp:88-89 | a scaled pixel is the product when that reaches the threshold, and 0 otherwise, so it is never strictly between 0 and the threshold |
| CvFloatImage.Scaled | src/ofxCvFloatImage.cpp:87-91 | the scaled image has the same size, and each pixel is the scaled pixel of the original |
| CvFloatImage.ScaleByOneIdempotent | src/ofxCvFloatImage.cpp:80-94 | multiplying by one a second time changes nothing: the clamp has already been applied |
| CvFloatImage.ScaleThenInverse | src/ofxCvFloatImage.cpp:80-114 | for a pixel at or above the threshold whose product is too, dividing by the scalar after multiplying by it gives the pixel back |
| CvFloatImage.EffectiveInterpolation | src/ofxCvFloatImage.cpp:287-293 | the four OpenCV methods are kept and any other value becomes nearest-neighbour |
| CvFloatImage.FloatImage.constructor | src/ofxCvFloatImage.cpp:16-33 | allocation gives a buffer of width times height pixels; the texture is marked dirty when the image uses one, and otherwise the flag keeps the value the base image gave it |
| CvFloatImage.FloatImage.MultiplyAssign | src/ofxCvFloatImage.cpp:80-94 | every pixel is scaled and clamped and the texture marked dirty; an image without pixels keeps its dirty flag |
| CvFloatImage.FloatImage.DivideAssign | src/ofxCvFloatImage.cpp:97-114 | an empty image or a zero scalar changes nothing; otherwise every pixel is scaled by the inverse and clamped and the texture marked dirty |
| CvFloatImage.FloatImage.ScaleInPlace | src/ofxCvFloatImage.cpp:85-91 | the pointer loop leaves every pixel scaled and clamped |
| CvFloatImage.FloatImage.Assign | src/ofxCvFloatImage.cpp:141-148 | a float image of the same size is copied and the texture marked dirty; one of another size changes nothing |
| CvFloatImage.FloatImage.AssignConverted | src/ofxCvFloatImage.cpp:117-138 | a grayscale or colour image of the same size is converted in and the texture marked dirty; one of another size changes nothing |
| CvFloatImage.FloatImage.ScaleIntoMe | src/ofxCvFloatImage.cpp:275-300 | the resize happens exactly when the channel count and depth match, with the checked interpolation method, and marks the texture dirty; otherwise nothing changes |
| UnitTests.GetColor | addons/ofxUnitTests/src/ofxUnitTests.h:21-33 | errors and fatal errors are red, warnings yellow, notices green and every other level the default colour, each in both directions |
| UnitTests.CountPassed | addons/ofxUnitTests/src/ofxUnitTests.h:217-227 | no more tests pass than were run |
| UnitTests.CountFailed | addons/ofxUnitTests/src/ofxUnitTests.h:217-227 | no more tests fail than were run |
| UnitTests.PassedPlusFailed | addons/ofxUnitTests/src/ofxUnitTests.h:217-227 | every test run either passes or fails, so the two counts add up to the total |
| UnitTests.NoFailureIffAllPassed | addons/ofxUnitTests/src/ofxUnitTests.h:217-227 | the failure count is zero exactly when every test passed |
| UnitTests.AllPassingReportedFailed | addons/ofxUnitTests/src/ofxUnitTests.h:185-190 | as written, a run in which every test passes is reported as failed |
| UnitTests.PassedFlagIffAllPassed | addons/ofxUnitTests/src/ofxUnitTests.h:185-190 | the corrected flag is set exactly when every test passed |
| UnitTests.UnitTestsApp.constructor | addons/ofxUnitTests/src/ofxUnitTests.h:253-256 | all three counters start at zero |
| UnitTests.UnitTestsApp.Test | addons/ofxUnitTests/src/ofxUnitTests.h:217-231 | the total grows by one and exactly one of the passed and failed counters grows by one, as the outcome says |
| UnitTests.UnitTestsApp.TestEq | addons/ofxUnitTests/src/ofxUnitTests.h:233-251 | like a test whose outcome is whether the two values are equal |
| UnitTests.UnitTestsApp.Setup | addons/ofxUnitTests/src/ofxUnitTests.h:170-213 | after the run the counters have grown by the passing and failing tests, the flag is computed as written from the failure count and the exit code is the failure count |
| MainLoop.FirstCloseIsFirst | libs/openFrameworks/app/ofMainLoop.cpp:135-141 | a status is found exactly when some turn asks the loop to close, and the turn found has no such turn before it |
| MainLoop.PassConsumes | libs/openFrameworks/app/ofMainLoop.cpp:106-116 | a pass takes exactly one turn for each window that survives it, and the turns left are the end of the script |
| MainLoop.PassErasesClosing | libs/openFrameworks/app/ofMainLoop.cpp:107-111 | when every window still to visit is asked to close, the rest of the pass erases them all and takes no turn |
| MainLoop.PassStatus | libs/openFrameworks/app/ofMainLoop.cpp:106-116 | a pass of a loop that is not closing either ends closing with the status of the first turn that asks, or takes no such turn and keeps the status |
| MainLoop.RunEnds | libs/openFrameworks/app/ofMainLoop.cpp:95-99 | the default loop ends only when it is closing or has no window left |
| MainLoop.RunStatus | libs/openFrameworks/app/ofMainLoop.cpp:95-104 | a loop that was not closing ends either closing with the status of the first turn that asks, or with no window left and its status unchanged |
| MainLoop.MainLoop.constructor | libs/openFrameworks/app/ofMainLoop.cpp:29-37 | a new loop is not closing, has status 0, allows several windows, quits on escape, has no window loop and no windows |
| MainLoop.MainLoop.AddWindow | libs/openFrameworks/app/ofMainLoop.cpp:66-67 | a new window joins the loop's windows, not yet asked to close |
| MainLoop.MainLoop.ShouldClose | libs/openFrameworks/app/ofMainLoop.cpp:135-141 | every window is asked to close, the loop is closing and the status is the one given |
| MainLoop.MainLoop.SetEscapeQuitsLoop | libs/openFrameworks/app/ofMainLoop.cpp:143-145 | escape quits the loop exactly as the flag says |
| MainLoop.MainLoop.KeyPressed | libs/openFrameworks/app/ofMainLoop.cpp:147-151 | escape while escape quits closes everything with status 0; any other key, or escape with the flag unset, changes nothing |
| MainLoop.MainLoop.LoopOnce | libs/openFrameworks/app/ofMainLoop.cpp:106-121 | the pass erases every window asked to close and gives each other window its turn, ending in the state of the pass specification with the turns left |
| MainLoop.MainLoop.Loop | libs/openFrameworks/app/ofMainLoop.cpp:95-104 | with a window loop nothing changes and the status is returned; otherwise the loop ends in the state of the loop specification, which is closing or has no window left, and returns its status |
| MainLoop.MainLoop.RunPasses | libs/openFrameworks/app/ofMainLoop.cpp:96-99 | the passes run while the loop is not closing and has windows, and end in the state of the loop specification |

## Left out

- `ofxTCPManager.h` and `ofConstants.h` are not part of this model. Their constants are taken to be the usual POSIX and openFrameworks values: `INVALID_SOCKET` and `SOCKET_ERROR` are -1, `SOCKET_TIMEOUT` is `SOCKET_ERROR - 1`, and `NO_TIMEOUT`, the default for every timeout, is `0xFFFF`.
- Socket I/O, `gethostbyname`, Winsock start-up and clean-up, signal handlers, `CheckIsConnected`, `CheckHost`, `CheckError`, the log messages, `GetTickCount` and `usleep` are foreign calls. They are not modelled; each answer a model operation needs from them is either a parameter or an entry of a script that the caller passes in.
- TcpManager.Manager.Write: when the script of `Send` answers runs out before the transfer ends, the result is `Pending`. The same goes for `SendAll` and `ReceiveAll`. This is a property of the finite script, not of the source, whose loops simply go on running.
- TcpManager.Manager.SendAll: deadlines are compared as unbounded integers. The wrap-around of the unsigned tick counter is not modelled. The same holds for `ReceiveAll`.
- TcpManager.Manager.Connect: the blocking mode is restored through `SetNonBlocking`. If that call itself fails, the rolled-back flag is what the model keeps, as the source does.
- Shader: OpenGL calls are left out. Shader compilation, uniforms and attributes, and `glDeleteShader`/`glDeleteProgram` keep only the bookkeeping around them. The `shaders` map is modelled as a sequence of (type, id) stages that `Put` replaces in place.
- Shader.ShaderObject.CheckAndCreateProgram: the `GL_ARB_shader_objects` capability test is taken to pass, as it always does on OpenGL ES.
- BaseGui: the serializer load and save, drawing and the mouse handlers are left out. Pixels are reduced to their alpha.
- GuiGroup.Group.GetControlAt: the source takes an `int`, and a negative index passes its `num < size` test and reads out of range, which C++ leaves undefined; the model takes a `nat`, so that case is excluded by the type.
- GuiGroup.Group.Add: the listener bookkeeping (`ofUnregisterMouseEvents`), the subgroup's `filename` and `parent`, and `parameters.add` concern event plumbing and the parameter group, which are not part of this model.
- GuiGroup: the mouse handlers, `setValue`, drawing, `setup(parameters)`, `minimizeAll`/`maximizeAll` and the callback into the parent's `sizeChangedCB` are UI event plumbing and are left out. `ofxGuiGroup.h` declares the mouse handlers as returning `bool` while the `.cpp` defines them returning `void`; neither version is modelled.
- CairoRenderer: the Cairo drawing itself is a foreign call and is left out. That covers the arc scaling of ellipses, subpaths, fill and stroke, `close` and the matrix calls. Only the index lists, the page counter and the point window are modelled.
- ShapeUtils.SmoothPolyline: requires `smoothingSize` to be at most the vertex count and the normaliser `1 + 2 * weightSum` to be non-zero. Otherwise C's `%` on a negative neighbour position would read before the vector, or the code would divide by zero.
- ShapeUtils.ResamplePolyline: segment lengths need `sqrt`, so they are a parameter. The 0/0 of a zero-length segment is modelled as 0. The spacing must be positive whenever there are two vertices or more, because otherwise the source loops forever.
- Polyline.Polyline.Simplify: requires at least one vertex, because on an empty polyline the source reads `points[0]`. It does not set the dirty flag, and neither does the source.
- Polyline.Polyline.GetAngleAtIndex: the angles of `updateCache` need trigonometry, so they are a parameter. Only the cache refresh and the index clamping are modelled.
- Polyline: `arc`, the Bézier and curve builders, `getSmoothed`, `getClosestPoint`, the length lookup and `inside` use float-only numerics and are left out.
- GLRenderer: `OF_MAX_STYLE_HISTORY` is taken as 32. `ofColor::set` is taken to store its channels as given. The style defaults of `setupGraphicDefaults` are constructor parameters.
- GLRenderer.Renderer.SetStyle: the circle resolution is left out, because `setCircleResolution` rebuilds a point table with trigonometry. The OpenGL calls and the `glGet` reads are left out everywhere.
- ProgrammableGLRenderer: uploading matrices and colours to the shader is a foreign call and is left out. So are `setOrientationMatrix` and the screen perspective set-up, which need trigonometry; the orientation matrix is a field.
- ProgrammableGLRenderer.Renderer.FinishRender: the source calls `.empty()` on the stacks, which tests them without clearing them. The model keeps that behaviour, so the stacks are unchanged.
- Matrix4x4: `ofMatrix4x4.cpp` is not part of this model. The 16-argument constructor is taken to store its arguments in row-major order, `makeIdentityMatrix` to build the identity, and `preMult(matrix)` to compute `other * this`. Inversion, rotations, projections, `isNaN` and `getScale` are left out.
- Vec4.Vec4f.AverageOf: requires `num` to be non-zero, because the source divides by it. `getNormalized`, `getLimited` and `length` need `sqrt` and are left out.
- Vbo: `glGenBuffers`/`glDeleteBuffers` and the uploads are foreign calls, so a fresh buffer id is a parameter. A data pointer is reduced to whether it is null, and the `update*Data` uploads are left out.
- CvFloatImage.FloatImage.constructor: the base `ofxCvImage` constructor is not part of this model, so the dirty flag it leaves is the parameter `dirty0`. Reallocating an image that is already allocated, which first calls `clear()`, is not modelled; the constructor allocates a fresh image.
- CvFloatImage: `cvConvert`, `cvCvtColor`, `cvCopy` and `cvResize` are foreign calls. Their results are parameters, or are left out where only the checks around them are modelled.
- UnitTests: the log text and the timing are left out, and so is the Appveyor reporting, which is HTTP I/O. `test_eq` is modelled for two values of the same type.
- MainLoop: what a window's update and draw do is reduced to one turn of a script: nothing, asking its own window to close, or asking the loop to close with a status. `pollEvents` and the exit event are not modelled; a key press or close button they deliver is taken to act at some window's turn. A window asked to close by another window's app between turns is not modelled either.
- MainLoop.MainLoop.AddWindow: the window is taken to be new. Assigning a window that is already in the map replaces its app and adds no entry; the model always appends one.
- MainLoop.MainLoop.LoopOnce: the source erases the map element its iterator points at and then increments that same iterator, which C++ leaves undefined. The model goes on with the window after the erased one, as the erasure evidently intends.
- MainLoop.MainLoop.Loop: the effect of an installed `windowLoop` is not modelled. When the script of turns runs out before the loop ends, the result is `None`; this is a property of the finite script, not something the loop returns.
- `ofVec3f.h`, `ofMath` (`ofMap`) and the window classes are not part of this model.

## Findings

| source | as written | input that shows it | evidently intended | confidence | as-written member | corrected member |
|---|---|---|---|---|---|---|
| addons/ofxGui/src/ofxBaseGui.cpp:131-157 | the encoder writes one byte per complete group of 8 pixels and a trailing partial group is dropped; with more than 8 pixels the string then ends in `,}`, and with 1 to 7 pixels it is `{}` | a stencil with a pixel count above 8 that is not a multiple of 8, such as 9 pixels, or one of 1 to 7 pixels | every pixel is encoded, including the last partial group, with no trailing comma, so that decoding gives every pixel back | not executed | BaseGui.SaveStencilToHex | BaseGui.SaveStencilToHexAll |
| libs/openFrameworks/gl/ofGLRenderer.cpp:1268-1273 | `popStyle` applies the oldest saved style (`front`) but removes the newest (`back`) | push style A, set style B, push again, then pop: A is applied, not B | the newest saved style is applied and removed, so that a pop undoes the last push | not executed | GLRenderer.PopStyleAsWritten | GLRenderer.PopStyle |
| addons/ofxNetwork/src/ofxTCPManager.cpp:211-218 | after an in-progress connect `ret` holds `select`'s answer; the socket-error check only sets `ret` to the 1 it already holds, so `ret >= 0` also accepts a wait that times out (0) or a socket that reports an error | a connect to a closed port, where `select` answers 1 and `SO_ERROR` is non-zero, with a connect timeout set | a waited-for connect succeeds only when `select` answers 1 and `SO_ERROR` is 0 | not executed | TcpManager.ConnectSelectErrorReported | TcpManager.ConnectResultChecked |
| addons/ofxUnitTests/src/ofxUnitTests.h:185 | `passed` is computed as `numTestsFailed > 0` | a run in which every test passes is reported as failed | `passed` is set exactly when no test failed | not executed | UnitTests.AllPassingReportedFailed | UnitTests.PassedFlagIffAllPassed |
