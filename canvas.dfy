/**
 The canvas projector: the effect in `Canvas` that, a short while after the
 latest assistant message changes, clears the drawing surface and draws a
 heading plus one text shape per extracted step.

 The drawing surface (the whiteboard editor) is a class whose shape list and
 camera are updated in place. The debounce timer is modelled by a generation
 counter: every run of the effect cancels the timer armed by the previous run
 (by bumping the generation), and a timer only acts when it fires with the
 current generation.
 */
module CanvasProjector {
  import opened Opt
  import opened Text
  import opened StepExtractor

  // ---------------------------------------------------------------------------
  // Shapes and their layout

  /** Text sizes used on the canvas: `'m'` for the heading, `'s'` for steps. */
  datatype Size = Medium | Small

  datatype Color = Blue | Black

  datatype Camera = Camera(x: int, y: int, z: int)

  /** What a text shape shows and where (the font and alignment are the same for all shapes). */
  datatype TextShape = TextShape(x: int, y: int, text: string, size: Size, color: Color)

  /** A shape on the surface: a fresh identifier plus what it shows. */
  datatype Shape = Shape(id: nat, props: TextShape)

  const HeadingText: string := "\U{1F50D} Algorithm Steps"

  const Heading: TextShape := TextShape(10, 50, HeadingText, Medium, Blue)

  /** The camera the projection resets to: origin, zoom 1. */
  const HomeCamera: Camera := Camera(0, 0, 1)

  /** Vertical distance between two step rows, and the row of the first step. */
  const RowSpacing: int := 40
  const FirstRowY: int := 90

  /** The label drawn for the step at (zero-based) `index`: its one-based number, a dot, a space and the step. */
  function StepLabel(index: nat, step: string): string {
    DecimalString(index + 1) + ". " + step
  }

  function StepShape(index: nat, step: string): TextShape {
    TextShape(20, FirstRowY + index * RowSpacing, StepLabel(index, step), Small, Black)
  }

  /** The step rows for the first `n` steps. */
  function Rows(steps: seq<string>, n: nat): seq<TextShape>
    requires n <= |steps|
  {
    seq(n, i requires 0 <= i < n => StepShape(i, steps[i]))
  }

  /** Everything one projection draws: nothing without steps, otherwise the heading and one row per step. */
  function Layout(steps: seq<string>): seq<TextShape> {
    if steps == [] then [] else [Heading] + Rows(steps, |steps|)
  }

  /** What a list of shapes shows, without the identifiers. */
  function Props(shapes: seq<Shape>): seq<TextShape> {
    seq(|shapes|, i requires 0 <= i < |shapes| => shapes[i].props)
  }

  /** The identifiers on a surface are strictly increasing, hence pairwise distinct. */
  predicate IdsIncreasing(shapes: seq<Shape>) {
    forall j, k :: 0 <= j < k < |shapes| ==> shapes[j].id < shapes[k].id
  }

  // ---------------------------------------------------------------------------
  // The drawing surface

  /** The whiteboard editor, reduced to the shapes on the page and the camera. */
  class Surface {
    var shapes: seq<Shape>
    var camera: Camera
    /** The identifier the next created shape gets (the editor's fresh-id supply). */
    var nextId: nat

    ghost predicate Valid()
      reads this
    {
      IdsIncreasing(shapes) && forall k :: 0 <= k < |shapes| ==> shapes[k].id < nextId
    }

    /** What the page shows, in creation order. */
    function Drawn(): seq<TextShape>
      reads this
    {
      Props(shapes)
    }

    constructor ()
      ensures Valid() && shapes == [] && camera == HomeCamera && nextId == 0
    {
      shapes := [];
      camera := HomeCamera;
      nextId := 0;
    }

    /** Select every shape and delete the selection. */
    method DeleteAll()
      requires Valid()
      modifies this
      ensures Valid() && shapes == [] && camera == old(camera) && nextId == old(nextId)
    {
      shapes := [];
    }

    /** Create a shape with a fresh identifier; it is drawn on top of the others. */
    method CreateShape(props: TextShape) returns (id: nat)
      requires Valid()
      modifies this
      ensures Valid()
      ensures shapes == old(shapes) + [Shape(id, props)]
      ensures forall k :: 0 <= k < |old(shapes)| ==> old(shapes)[k].id != id
      ensures Drawn() == old(Drawn()) + [props]
      ensures camera == old(camera)
    {
      id := nextId;
      shapes := shapes + [Shape(id, props)];
      nextId := nextId + 1;
      assert Props(shapes) == Props(old(shapes)) + [props];
    }

    method SetCamera(c: Camera)
      modifies this
      ensures camera == c && shapes == old(shapes) && nextId == old(nextId)
    {
      camera := c;
    }
  }

  // ---------------------------------------------------------------------------
  // The component

  /** The armed debounce timer: the generation that armed it and the message it will project. */
  datatype Pending = Pending(generation: nat, message: string)

  class Canvas {
    const editor: Surface
    var isEditorReady: bool
    var latestMessage: Option<string>
    /** How many times the effect has run; a timer armed by an earlier run is cancelled. */
    var generation: nat
    var pending: Option<Pending>

    ghost predicate Valid()
      reads this, editor
    {
      && editor.Valid()
      && (pending.Some? ==>
            && pending.value.generation == generation
            && isEditorReady
            && latestMessage == Some(pending.value.message)
            && pending.value.message != [])
    }

    /** The condition under which the effect arms its timer. */
    predicate WillProject()
      reads this
    {
      isEditorReady && latestMessage.Some? && latestMessage.value != []
    }

    constructor ()
      ensures Valid() && fresh(editor)
      ensures !isEditorReady && latestMessage == None && pending == None && generation == 0
      ensures editor.shapes == []
    {
      editor := new Surface();
      isEditorReady := false;
      latestMessage := None;
      generation := 0;
      pending := None;
    }

    /**
     One run of the effect: first the cleanup of the previous run cancels its
     timer, then a new timer is armed if there is a non-empty message and the
     editor is ready.
     */
    method RunEffect()
      requires editor.Valid()
      requires pending.Some? ==> pending.value.generation == generation
      modifies this`generation, this`pending
      ensures Valid()
      ensures generation == old(generation) + 1
      ensures pending == if WillProject() then Some(Pending(generation, latestMessage.value)) else None
    {
      generation := generation + 1;
      if WillProject() {
        pending := Some(Pending(generation, latestMessage.value));
      } else {
        pending := None;
      }
    }

    /** The editor mounted: mark it ready; the effect runs again only if readiness changed. */
    method HandleMount()
      requires Valid()
      modifies this`isEditorReady, this`generation, this`pending
      ensures Valid() && isEditorReady
      ensures old(isEditorReady) ==> generation == old(generation) && pending == old(pending)
      ensures !old(isEditorReady) ==>
        (generation == old(generation) + 1 &&
         pending == if WillProject() then Some(Pending(generation, latestMessage.value)) else None)
    {
      if !isEditorReady {
        isEditorReady := true;
        RunEffect();
      }
    }

    /** A new `latestMessage` prop: the effect runs again only if the message changed. */
    method SetLatestMessage(message: Option<string>)
      requires Valid()
      modifies this`latestMessage, this`generation, this`pending
      ensures Valid() && latestMessage == message
      ensures message == old(latestMessage) ==> generation == old(generation) && pending == old(pending)
      ensures message != old(latestMessage) ==>
        (generation == old(generation) + 1 &&
         pending == if WillProject() then Some(Pending(generation, latestMessage.value)) else None)
    {
      if message != latestMessage {
        latestMessage := message;
        RunEffect();
      }
    }

    /**
     The timer armed by generation `g` fires. A cancelled timer does nothing;
     the live one projects the message it captured, which is the latest one.
     */
    method TimerFired(g: nat)
      requires Valid()
      modifies this`pending, editor
      ensures Valid()
      ensures old(pending).Some? && old(pending).value.generation == g ==>
        && pending == None
        && latestMessage.Some?
        && editor.Drawn() == Layout(Steps(latestMessage.value))
        && (Steps(latestMessage.value) != [] ==> editor.camera == HomeCamera)
        && (Steps(latestMessage.value) == [] ==> editor.camera == old(editor.camera))
      ensures !(old(pending).Some? && old(pending).value.generation == g) ==>
        pending == old(pending) && unchanged(editor)
    {
      if pending.Some? && pending.value.generation == g {
        var message := pending.value.message;
        pending := None;
        VisualizeContent(message);
      }
    }

    /**
     Project a message: clear the page, extract the steps, and if there are any
     draw the heading and one row per step, then reset the camera.
     */
    method VisualizeContent(message: string)
      requires editor.Valid()
      modifies editor
      ensures editor.Valid()
      ensures editor.Drawn() == Layout(Steps(message))
      ensures editor.camera == if Steps(message) == [] then old(editor.camera) else HomeCamera
    {
      editor.DeleteAll();
      var validSteps := ExtractSteps(message);
      if |validSteps| == 0 {
        return;
      }
      DrawSteps(validSteps);
    }

    /** Draw the heading and one row per step on an empty page, then reset the camera. */
    method DrawSteps(validSteps: seq<string>)
      requires editor.Valid() && editor.shapes == [] && validSteps != []
      modifies editor
      ensures editor.Valid()
      ensures editor.Drawn() == Layout(validSteps)
      ensures editor.camera == HomeCamera
    {
      var _ := editor.CreateShape(Heading);
      var index := 0;
      while index < |validSteps|
        invariant 0 <= index <= |validSteps|
        invariant editor.Valid()
        invariant editor.Drawn() == [Heading] + Rows(validSteps, index)
      {
        var _ := editor.CreateShape(StepShape(index, validSteps[index]));
        assert Rows(validSteps, index + 1) == Rows(validSteps, index) + [StepShape(index, validSteps[index])];
        index := index + 1;
      }
      editor.SetCamera(HomeCamera);
    }
  }

  // ---------------------------------------------------------------------------
  // Lemmas

  /**
   The layout's geometry: nothing is drawn without steps; otherwise the heading
   comes first and step `i` is row `i`, labelled with its one-based number.
   */
  lemma LayoutShape(steps: seq<string>)
    ensures steps == [] ==> Layout(steps) == []
    ensures steps != [] ==> |Layout(steps)| == |steps| + 1 && Layout(steps)[0] == Heading
    ensures forall i :: 0 <= i < |steps| ==>
      Layout(steps)[i + 1] == TextShape(20, 90 + 40 * i, DecimalString(i + 1) + ". " + steps[i], Small, Black)
  {
    if steps != [] {
      var rows := Rows(steps, |steps|);
      assert Layout(steps) == [Heading] + rows;
      forall i | 0 <= i < |steps|
        ensures Layout(steps)[i + 1] == TextShape(20, 90 + 40 * i, DecimalString(i + 1) + ". " + steps[i], Small, Black)
      {
        assert Layout(steps)[i + 1] == rows[i] == StepShape(i, steps[i]);
      }
    }
  }

  /** Step rows go strictly downwards, all of them below the heading. */
  lemma {:induction false} RowsDescend(steps: seq<string>)
    ensures forall i, j :: 0 <= i < j < |Layout(steps)| ==> Layout(steps)[i].y < Layout(steps)[j].y
  {
    forall i, j | 0 <= i < j < |Layout(steps)|
      ensures Layout(steps)[i].y < Layout(steps)[j].y
    {
      RowHeight(steps, j);
      RowHeight(steps, i);
    }
  }

  /** The heading stands at y 50 and row `j` at y `90 + 40 * (j - 1)`. */
  lemma RowHeight(steps: seq<string>, j: nat)
    requires j < |Layout(steps)|
    ensures Layout(steps)[j].y == if j == 0 then 50 else 90 + 40 * (j - 1)
  {
    if j > 0 {
      assert Layout(steps)[j] == StepShape(j - 1, steps[j - 1]);
    }
  }

  /** A step label starts with a digit, so only the first shape of a layout is the heading. */
  lemma OneHeading(steps: seq<string>)
    ensures forall i :: 0 < i < |Layout(steps)| ==> Layout(steps)[i].text != HeadingText
  {
    forall i | 0 < i < |Layout(steps)|
      ensures Layout(steps)[i].text != HeadingText
    {
      var drawn := StepLabel(i - 1, steps[i - 1]);
      assert Layout(steps)[i].text == drawn;
      assert drawn[0] == DecimalString(i)[0];
      assert IsDigit(drawn[0]);
    }
  }

  /**
   Labels read back as steps: the step read out of the label drawn for a clean
   step is that step, under the same rule the extractor uses.
   */
  lemma LabelReadsBack(index: nat, step: string)
    requires IsCleanStep(step)
    ensures IsStepLine(StepLabel(index, step)) && StepText(StepLabel(index, step)) == step
  {
    NumberedLineStep(index + 1, ". ", step);
  }

  /** Every label drawn for a message reads back as the step it was drawn for. */
  lemma DrawnLabelsReadBack(message: string)
    ensures forall i :: 0 < i < |Layout(Steps(message))| ==>
      IsStepLine(Layout(Steps(message))[i].text) && StepText(Layout(Steps(message))[i].text) == Steps(message)[i - 1]
  {
    RowsReadBack(Steps(message));
  }

  /** Every row drawn for a list of clean steps reads back as its step. */
  lemma RowsReadBack(steps: seq<string>)
    requires forall k :: 0 <= k < |steps| ==> IsCleanStep(steps[k])
    ensures forall i :: 0 < i < |Layout(steps)| ==>
      IsStepLine(Layout(steps)[i].text) && StepText(Layout(steps)[i].text) == steps[i - 1]
  {
    forall i | 0 < i < |Layout(steps)|
      ensures IsStepLine(Layout(steps)[i].text) && StepText(Layout(steps)[i].text) == steps[i - 1]
    {
      RowReadsBack(steps, i);
    }
  }

  /** The row drawn for a clean step reads back as that step. */
  lemma RowReadsBack(steps: seq<string>, j: nat)
    requires 0 < j <= |steps| && IsCleanStep(steps[j - 1])
    ensures j < |Layout(steps)|
    ensures IsStepLine(Layout(steps)[j].text) && StepText(Layout(steps)[j].text) == steps[j - 1]
  {
    LayoutShape(steps);
    assert Layout(steps)[j].text == StepLabel(j - 1, steps[j - 1]);
    LabelReadsBack(j - 1, steps[j - 1]);
  }

  /** At most the heading and five rows are ever drawn. */
  lemma LayoutBounded(message: string)
    ensures |Layout(Steps(message))| <= MaxSteps + 1
  {
  }

  /**
   Debouncing: when a second, different message arrives before the first timer
   fires, the first timer does nothing and the second projects the newer message.
   */
  method NewerMessageWins(first: string, second: string) returns (afterStale: seq<TextShape>, afterLive: seq<TextShape>)
    requires first != [] && second != [] && first != second
    ensures afterStale == []
    ensures afterLive == Layout(Steps(second))
  {
    var canvas := new Canvas();
    canvas.HandleMount();
    canvas.SetLatestMessage(Some(first));
    var stale := canvas.generation;
    canvas.SetLatestMessage(Some(second));
    var live := canvas.generation;
    assert canvas.pending == Some(Pending(live, second)) && stale < live;
    assert canvas.editor.shapes == [];
    canvas.TimerFired(stale);
    afterStale := canvas.editor.Drawn();
    assert canvas.pending == Some(Pending(live, second));
    canvas.TimerFired(live);
    afterLive := canvas.editor.Drawn();
  }

  /**
   A freshly mounted canvas given a message: once the debounce timer fires it
   shows exactly the layout of the message's steps (nothing for an absent or
   empty message).
   */
  method ProjectOnNewCanvas(message: Option<string>) returns (drawn: seq<TextShape>)
    ensures message.Some? ==> drawn == Layout(Steps(message.value))
    ensures message.None? ==> drawn == []
  {
    var canvas := new Canvas();
    canvas.HandleMount();
    canvas.SetLatestMessage(message);
    if message.Some? && message.value != [] {
      assert canvas.pending == Some(Pending(canvas.generation, message.value));
      canvas.TimerFired(canvas.generation);
      drawn := canvas.editor.Drawn();
    } else {
      if message.Some? {
        NoKeywordNoSteps("");
      }
      assert canvas.pending == None && canvas.editor.shapes == [];
      canvas.TimerFired(canvas.generation);
      drawn := canvas.editor.Drawn();
    }
  }

  /**
   Projecting the same message twice leaves the same shapes as projecting it
   once: the first projection is deleted before the second is drawn.
   */
  method ReprojectSameMessage(message: string) returns (first: seq<TextShape>, second: seq<TextShape>)
    ensures first == second == Layout(Steps(message))
  {
    var canvas := new Canvas();
    canvas.VisualizeContent(message);
    first := canvas.editor.Drawn();
    canvas.VisualizeContent(message);
    second := canvas.editor.Drawn();
  }

  /** Before the editor is ready no timer is armed, so whatever fires leaves the page empty. */
  method UnreadyCanvasStaysEmpty(message: string, g: nat) returns (drawn: seq<TextShape>)
    ensures drawn == []
  {
    var canvas := new Canvas();
    canvas.SetLatestMessage(Some(message));
    canvas.TimerFired(g);
    drawn := canvas.editor.Drawn();
  }
}
