/** The per-frame interaction logic of win32_main.cpp: the mouse-button flag `WindowProc` toggles, the two
    change detectors `isCursorPosChanged` and `isPrimitiveIDChanged`, and one iteration of the frame loop
    (mouse uniform, identity pass, pick readback, visible pass, counter increment, highlight and axis
    overlays). Window messages, the cursor position and the texel the GPU returns are inputs; what the loop
    asks the GPU and the console to do is returned as an ordered list of commands. */
module Interaction {
  import opened Draws
  import opened CTypes

  /** The window messages `WindowProc` distinguishes; every other message is `OtherMessage`. */
  datatype Message =
    | LButtonDown | RButtonDown | MButtonDown | XButtonDown
    | LButtonUp | RButtonUp | MButtonUp | XButtonUp
    | Destroy
    | OtherMessage

  /** The eight messages that toggle the button flag. */
  predicate IsButtonMessage(m: Message) {
    !(m.Destroy? || m.OtherMessage?)
  }

  /** `WindowProc`: every button-down and every button-up message XORs the one shared flag. */
  function WindowProc(buttonDown: bool, m: Message): (r: bool)
    ensures IsButtonMessage(m) ==> r == !buttonDown
    ensures !IsButtonMessage(m) ==> r == buttonDown
  {
    match m
    case LButtonDown | RButtonDown | MButtonDown | XButtonDown => if buttonDown then false else true
    case LButtonUp | RButtonUp | MButtonUp | XButtonUp => if buttonDown then false else true
    case Destroy | OtherMessage => buttonDown
  }

  /** The flag after `WindowProc` has seen a sequence of messages in order. */
  function ProcessMessages(buttonDown: bool, ms: seq<Message>): bool
    decreases |ms|
  {
    if |ms| == 0 then buttonDown else ProcessMessages(WindowProc(buttonDown, ms[0]), ms[1..])
  }

  /** How many of the messages are button messages. */
  function ButtonMessageCount(ms: seq<Message>): nat {
    if |ms| == 0 then 0 else (if IsButtonMessage(ms[0]) then 1 else 0) + ButtonMessageCount(ms[1..])
  }

  /** The flag is its initial value XOR the parity of the button messages seen: a down followed by an up
      restores it, and so do two downs, whatever buttons they come from. */
  lemma {:induction false} ButtonFlagIsParity(buttonDown: bool, ms: seq<Message>)
    ensures ProcessMessages(buttonDown, ms) == (buttonDown != (ButtonMessageCount(ms) % 2 == 1))
    decreases |ms|
  {
    if |ms| > 0 {
      ButtonFlagIsParity(WindowProc(buttonDown, ms[0]), ms[1..]);
    }
  }

  /** Two downs in a row leave a released button released, even when one is the left and the other the right
      button; a down then an up of different buttons also ends released. */
  lemma TwoButtonEventsCancel(first: Message, second: Message)
    requires IsButtonMessage(first) && IsButtonMessage(second)
    ensures ProcessMessages(false, [first, second]) == false
  {
    ButtonFlagIsParity(false, [first, second]);
    assert [first, second][1..] == [second];
    assert ButtonMessageCount([second]) == 1;
  }

  /** A window-client cursor position, `Position`. */
  datatype Position = Position(x: int, y: int)

  /** The shape shared by `isCursorPosChanged` and `isPrimitiveIDChanged`: a stored last value compared
      with each new input. */
  datatype Detector<T> = Detector(last: T)

  /** The answer of a detector and its state afterwards. */
  datatype Detection<T> = Detection(changed: bool, after: Detector<T>)

  /** `isCursorPosChanged` and `isPrimitiveIDChanged`: an equal input answers false and keeps the stored
      value; any other input is stored and answers true. Either way the detector then holds the input. */
  function Detect<T(==)>(d: Detector<T>, input: T): (r: Detection<T>)
    ensures r.changed <==> input != d.last
    ensures r.after.last == input
    ensures !r.changed ==> r.after == d
  {
    if input == d.last then Detection(false, d) else Detection(true, Detector(input))
  }

  /** Feeding a detector the same input twice answers false the second time. */
  lemma RepeatedInputIsUnchanged<T>(d: Detector<T>, input: T)
    ensures !Detect(Detect(d, input).after, input).changed
    ensures Detect(Detect(d, input).after, input).after == Detect(d, input).after
  {
  }

  /** `PixelBufferData`: the three unsigned integers read back from the picking texture. */
  datatype Texel = Texel(objectID: nat, drawID: nat, primitiveID: nat)

  /** Everything one iteration of the frame loop asks of the GPU or the console, in order. */
  datatype Command =
    | SetMouseUniform(x: int, y: int)
    | LogCursor(position: Position)
    | IdentityPass(counter: nat)
    | Readback(x: int, y: int)
    | VisiblePass(counter: nat)
    | LogPrimitive(primitiveID: nat)
    | DrawHighlight(call: DrawCall, depthTest: bool)
    | DrawAxes(call: DrawCall, depthTest: bool)

  /** The state that survives between frames: the button flag, the two detectors and the frame counter. */
  datatype State = State(buttonDown: bool, cursor: Detector<Position>, primitive: Detector<nat>, counter: nat)

  /** Static storage starts zeroed: button up, last cursor (0, 0), last primitive 0, counter 0. */
  const Initial: State := State(false, Detector(Position(0, 0)), Detector(0), 0)

  /** `++counter` on an `unsigned static int`. */
  function NextCounter(counter: nat): (r: nat)
    ensures r < U32Modulus
    ensures counter + 1 < U32Modulus ==> r == counter + 1
    ensures counter == U32Modulus - 1 ==> r == 0
  {
    (counter + 1) % U32Modulus
  }

  /** The cursor lies in the client area of a width x height window. */
  predicate InWindow(cursor: Position, width: int, height: int) {
    0 <= cursor.x && 0 <= cursor.y && cursor.x < width && cursor.y < height
  }

  /** `mouseUniform`: (-1, -1) outside the window, otherwise the cursor with y flipped to count from the bottom row. */
  function MouseUniform(cursor: Position, width: int, height: int): Position {
    if InWindow(cursor, width, height) then Position(cursor.x, (height - 1) - cursor.y) else Position(-1, -1)
  }

  /** The pixel `readFromTextureCube(x, y, width, height, ...)` passes to `glReadPixels`. */
  function ReadbackPixel(cursor: Position, height: int): Position {
    Position(cursor.x, height - cursor.y)
  }

  /** What a frame leaves behind and what it asked for. */
  datatype FrameResult = FrameResult(after: State, commands: seq<Command>)

  /** The commands and detector state of the in-window cursor check. */
  function CursorStep(s: State, cursor: Position, width: int, height: int): (r: (Detector<Position>, seq<Command>))
    ensures !InWindow(cursor, width, height) ==> r.0 == s.cursor && r.1 == []
    ensures InWindow(cursor, width, height) ==> r.0.last == cursor
    ensures r.1 == [] || r.1 == [LogCursor(cursor)]
  {
    if InWindow(cursor, width, height) then
      var d := Detect(s.cursor, cursor);
      (d.after, if d.changed then [LogCursor(cursor)] else [])
    else
      (s.cursor, [])
  }

  /** The highlight branch: only with the button down and the cube (object 1) under the cursor. */
  function HighlightStep(s: State, texel: Texel): (r: (Detector<nat>, seq<Command>))
    ensures !(s.buttonDown && texel.objectID == 1) ==> r.0 == s.primitive && r.1 == []
  {
    if s.buttonDown && texel.objectID == 1 then
      var d := Detect(s.primitive, texel.primitiveID);
      (d.after, (if d.changed then [LogPrimitive(texel.primitiveID)] else []) + [DrawHighlight(DrawPrimitive(texel.primitiveID), false)])
    else
      (s.primitive, [])
  }

  /** One iteration of the frame loop, after the message queue is empty (win32_main.cpp lines 979-1031).
      `texel` is what the GPU returns for the readback. */
  function Frame(s: State, width: int, height: int, cursor: Position, texel: Texel): (r: FrameResult)
    ensures r.after.buttonDown == s.buttonDown
    ensures r.after.counter == NextCounter(s.counter)
  {
    var uniform := MouseUniform(cursor, width, height);
    var (cursorDetector, cursorLog) := CursorStep(s, cursor, width, height);
    var readAt := ReadbackPixel(cursor, height);
    var (primitiveDetector, highlight) := HighlightStep(s, texel);
    var axes := if s.buttonDown then [DrawAxes(DrawQuad(), true)] else [];
    FrameResult(
      State(s.buttonDown, cursorDetector, primitiveDetector, NextCounter(s.counter)),
      cursorLog + [SetMouseUniform(uniform.x, uniform.y), IdentityPass(s.counter), Readback(readAt.x, readAt.y), VisiblePass(s.counter)]
        + highlight + axes)
  }

  /** Some command of the list satisfies the given kind test. */
  predicate Issues(commands: seq<Command>, kind: Command -> bool) {
    exists i | 0 <= i < |commands| :: kind(commands[i])
  }

  /** The gate and flip of the mouse uniform: it is the flipped cursor, with both coordinates inside the
      window, exactly when the cursor is in the window, and (-1, -1) otherwise. */
  lemma MouseUniformGate(cursor: Position, width: int, height: int)
    ensures var u := MouseUniform(cursor, width, height);
      (InWindow(cursor, width, height) <==> 0 <= u.x) &&
      (InWindow(cursor, width, height) ==> u.x == cursor.x && u.y == (height - 1) - cursor.y && InWindow(u, width, height)) &&
      (!InWindow(cursor, width, height) ==> u == Position(-1, -1))
  {
  }

  /** The readback samples one row above the row the uniform reports (its y is larger by one): for the top
      window row it asks for row `height`, which is outside the picking texture. */
  lemma ReadbackIsOneRowAboveUniform(cursor: Position, width: int, height: int)
    requires InWindow(cursor, width, height)
    ensures ReadbackPixel(cursor, height).x == MouseUniform(cursor, width, height).x
    ensures ReadbackPixel(cursor, height).y == MouseUniform(cursor, width, height).y + 1
    ensures cursor.y == 0 ==> ReadbackPixel(cursor, height).y == height
  {
  }

  /** Every frame, inside the window or not, issues the uniform, the identity pass, the readback at
      (x, height - y) and the visible pass, in that order and back to back, and both passes use the same
      counter value; only the cursor log line can come before them. The counter then advances once. */
  lemma FrameIssuesPassesInOrder(s: State, width: int, height: int, cursor: Position, texel: Texel)
    ensures var r := Frame(s, width, height, cursor, texel);
      var u := MouseUniform(cursor, width, height);
      var k := if InWindow(cursor, width, height) && cursor != s.cursor.last then 1 else 0;
      k + 4 <= |r.commands| &&
      r.commands[k..k + 4] == [SetMouseUniform(u.x, u.y), IdentityPass(s.counter), Readback(cursor.x, height - cursor.y), VisiblePass(s.counter)] &&
      r.after.counter == NextCounter(s.counter)
  {
  }

  /** The highlight is drawn exactly when the button is down and the readback names the cube; it draws
      vertices [3p, 3p + 3) of the picking table with the depth test off. The axes are drawn exactly when the
      button is down, with the depth test on. With the button up neither is drawn. */
  lemma FrameOverlays(s: State, width: int, height: int, cursor: Position, texel: Texel)
    ensures var r := Frame(s, width, height, cursor, texel);
      (Issues(r.commands, (c: Command) => c.DrawHighlight?) <==> s.buttonDown && texel.objectID == 1) &&
      (forall i | 0 <= i < |r.commands| && r.commands[i].DrawHighlight? ::
        r.commands[i] == DrawHighlight(DrawArrays(Triangles, 3 * texel.primitiveID, 3), false)) &&
      (Issues(r.commands, (c: Command) => c.DrawAxes?) <==> s.buttonDown) &&
      (forall i | 0 <= i < |r.commands| && r.commands[i].DrawAxes? ::
        r.commands[i] == DrawAxes(DrawArrays(Triangles, 0, AxisQuadVertexCount), true))
  {
    var r := Frame(s, width, height, cursor, texel);
    var (cd, cursorLog) := CursorStep(s, cursor, width, height);
    var (pd, highlight) := HighlightStep(s, texel);
    var u := MouseUniform(cursor, width, height);
    var passes := [SetMouseUniform(u.x, u.y), IdentityPass(s.counter), Readback(cursor.x, height - cursor.y), VisiblePass(s.counter)];
    var axes := if s.buttonDown then [DrawAxes(DrawQuad(), true)] else [];
    assert r.commands == cursorLog + passes + highlight + axes;
    if s.buttonDown && texel.objectID == 1 {
      assert r.commands[|cursorLog| + 4 + |highlight| - 1].DrawHighlight?;
    }
    if s.buttonDown {
      assert r.commands[|r.commands| - 1].DrawAxes?;
    }
  }

  /** The cursor is logged exactly when it is in the window and differs from the last logged in-window
      position, which it then replaces; outside the window the stored position is left alone. The primitive is
      logged exactly when the highlight branch runs with a new primitive ID, and only that branch stores it. */
  lemma FrameLogsChanges(s: State, width: int, height: int, cursor: Position, texel: Texel)
    ensures var r := Frame(s, width, height, cursor, texel);
      (Issues(r.commands, (c: Command) => c.LogCursor?) <==> InWindow(cursor, width, height) && cursor != s.cursor.last) &&
      r.after.cursor == (if InWindow(cursor, width, height) then Detector(cursor) else s.cursor) &&
      (Issues(r.commands, (c: Command) => c.LogPrimitive?) <==>
        s.buttonDown && texel.objectID == 1 && texel.primitiveID != s.primitive.last) &&
      r.after.primitive == (if s.buttonDown && texel.objectID == 1 then Detector(texel.primitiveID) else s.primitive)
  {
    var r := Frame(s, width, height, cursor, texel);
    var (cd, cursorLog) := CursorStep(s, cursor, width, height);
    var (pd, highlight) := HighlightStep(s, texel);
    var u := MouseUniform(cursor, width, height);
    var passes := [SetMouseUniform(u.x, u.y), IdentityPass(s.counter), Readback(cursor.x, height - cursor.y), VisiblePass(s.counter)];
    var axes := if s.buttonDown then [DrawAxes(DrawQuad(), true)] else [];
    assert r.commands == cursorLog + passes + highlight + axes;
    if InWindow(cursor, width, height) && cursor != s.cursor.last {
      assert r.commands[0].LogCursor?;
    }
    if s.buttonDown && texel.objectID == 1 && texel.primitiveID != s.primitive.last {
      assert r.commands[|cursorLog| + 4].LogPrimitive?;
    }
  }

  /** A second frame with the same cursor and the same readback, and no button message between, logs nothing. */
  lemma RepeatedFrameIsQuiet(s: State, width: int, height: int, cursor: Position, texel: Texel)
    ensures var second := Frame(Frame(s, width, height, cursor, texel).after, width, height, cursor, texel);
      !Issues(second.commands, (c: Command) => c.LogCursor?) && !Issues(second.commands, (c: Command) => c.LogPrimitive?)
  {
    var first := Frame(s, width, height, cursor, texel);
    FrameLogsChanges(s, width, height, cursor, texel);
    FrameLogsChanges(first.after, width, height, cursor, texel);
  }

  /** Pressing a button over primitive 4 of the cube highlights vertices 12 to 14 and shows the axes; after
      the release the same frame draws neither overlay. */
  lemma PressHighlightRelease(width: int, height: int, cursor: Position, texel: Texel, press: Message, release: Message)
    requires texel.objectID == 1 && texel.primitiveID == 4
    requires press == LButtonDown && release == LButtonUp
    ensures var pressed := Initial.(buttonDown := ProcessMessages(Initial.buttonDown, [press]));
      var down := Frame(pressed, width, height, cursor, texel);
      var released := down.after.(buttonDown := ProcessMessages(down.after.buttonDown, [release]));
      var up := Frame(released, width, height, cursor, texel);
      DrawHighlight(DrawArrays(Triangles, 12, 3), false) in down.commands &&
      DrawAxes(DrawArrays(Triangles, 0, 6), true) in down.commands &&
      !Issues(up.commands, (c: Command) => c.DrawHighlight? || c.DrawAxes?)
  {
    var pressed := Initial.(buttonDown := ProcessMessages(Initial.buttonDown, [press]));
    assert [press][1..] == [];
    assert ProcessMessages(Initial.buttonDown, [press]) == ProcessMessages(WindowProc(false, press), []);
    assert pressed.buttonDown;
    var down := Frame(pressed, width, height, cursor, texel);
    FrameOverlays(pressed, width, height, cursor, texel);
    var released := down.after.(buttonDown := ProcessMessages(down.after.buttonDown, [release]));
    assert [release][1..] == [];
    assert ProcessMessages(down.after.buttonDown, [release]) == ProcessMessages(WindowProc(true, release), []);
    assert !released.buttonDown;
    FrameOverlays(released, width, height, cursor, texel);
    var up := Frame(released, width, height, cursor, texel);
    forall i | 0 <= i < |up.commands| ensures !(up.commands[i].DrawHighlight? || up.commands[i].DrawAxes?) {
      assert !Issues(up.commands, (c: Command) => c.DrawHighlight?);
      assert !Issues(up.commands, (c: Command) => c.DrawAxes?);
    }
    var i :| 0 <= i < |down.commands| && down.commands[i].DrawHighlight?;
    var j :| 0 <= j < |down.commands| && down.commands[j].DrawAxes?;
    assert down.commands[i] == DrawHighlight(DrawArrays(Triangles, 12, 3), false);
    assert down.commands[j] == DrawAxes(DrawArrays(Triangles, 0, 6), true);
  }
}
