/**
 The page around the pipeline (script.js lines 1-2, 65-105, 107-119): the
 global `model` reference, the guard that refuses to predict before it is
 loaded, and predict's sequence preprocess, forward pass, decision, label.

 The forward pass (tf.tensor4d, model.predict and reading the output back)
 is a parameter: it either yields the probability vector or fails with the
 message of the error it threw, which predict's catch block shows.
 */
module Page {
  import Tensor
  import Pixels
  import Decision
  import Labels
  import Surface

  datatype Result<T> = Success(value: T) | Failure(error: string)

  /** The classifier's forward pass on an input tensor. */
  type Forward = Tensor.Tensor4 -> Result<Decision.ProbVector>

  /** The page's global state: whether `model` holds a loaded classifier, and the pointer state. */
  datatype State = State(modelLoaded: bool, surface: Surface.Surface)

  /** At page load nothing is loaded and nothing is being drawn. */
  const Initial: State := State(false, Surface.Initial)

  /** What one call of predict ends with. */
  datatype Outcome =
    | NotLoaded
    | Shown(name: string, index: nat, confidence: real)
    | Failed(message: string)

  /**
   predict: with no model loaded it only reports so; otherwise it runs the
   forward pass on the preprocessed drawing and shows the label of the first
   most probable class with that class's probability.
   */
  function Predict(state: State, data: seq<Pixels.Byte>, forward: Forward): (o: Outcome)
    requires |data| == Pixels.BufferLength
    ensures o.NotLoaded? <==> !state.modelLoaded
    ensures state.modelLoaded ==> (o.Failed? <==> forward(Pixels.InputTensor(data)).Failure?)
    ensures o.Failed? ==> o.message == forward(Pixels.InputTensor(data)).error
    ensures o.Shown? ==>
      && forward(Pixels.InputTensor(data)).Success?
      && var probs := forward(Pixels.InputTensor(data)).value;
      && Decision.IsFirstMax(probs, o.index)
      && o.confidence == probs[o.index]
      && o.name == Labels.LabelAt(o.index)
  {
    if !state.modelLoaded then NotLoaded
    else
      match forward(Pixels.InputTensor(data))
      case Failure(message) => Failed(message)
      case Success(probs) =>
        var k := Decision.FirstMax(probs);
        Shown(Labels.LabelAt(k), k, probs[k])
  }

  /** Without a model, predict reads neither the drawing nor anything a forward pass would give. */
  lemma NotLoadedTouchesNothing(state: State, a: seq<Pixels.Byte>, b: seq<Pixels.Byte>, f: Forward, g: Forward)
    requires !state.modelLoaded
    requires |a| == Pixels.BufferLength && |b| == Pixels.BufferLength
    ensures Predict(state, a, f) == Predict(state, b, g) == NotLoaded
  {
  }

  /** The text predict writes into the result element; `percent` stands for toFixed(1). */
  function StatusText(o: Outcome, percent: real -> string): (text: string)
    ensures o.Failed? ==> "Error: " <= text
    ensures o.Shown? ==> o.name <= text
  {
    match o
    case NotLoaded => "Model not loaded"
    case Shown(name, _, p) => name + " (" + percent(p * 100.0) + "%) - Check console for debug info"
    case Failed(message) => "Error: " + message
  }

  /** The "Model not loaded" message is written by the guard and by nothing else. */
  lemma NotLoadedTextIsTheGuard(o: Outcome, percent: real -> string)
    ensures StatusText(o, percent) == "Model not loaded" <==> o.NotLoaded?
  {
    var text := StatusText(o, percent);
    match o
    case NotLoaded =>
    case Failed(m) =>
      assert text[0] == 'E';
      assert "Model not loaded"[0] == 'M';
    case Shown(name, _, p) =>
      var tail := "%) - Check console for debug info";
      assert text == name + " (" + percent(p * 100.0) + tail;
      assert |text| >= |tail| > |"Model not loaded"|;
  }

  /** loadModel: a successful load sets `model`; a failed one leaves everything as it was. */
  function Load(state: State, succeeded: bool): (s': State)
    ensures s'.modelLoaded <==> state.modelLoaded || succeeded
    ensures s'.surface == state.surface
  {
    if succeeded then state.(modelLoaded := true) else state
  }

  /** What can happen to the page between two predictions. */
  datatype Event = Mouse(e: Surface.MouseEvent) | LoadFinished(succeeded: bool)

  function Step(state: State, ev: Event): State {
    match ev
    case Mouse(e) => state.(surface := Surface.Handle(state.surface, e))
    case LoadFinished(ok) => Load(state, ok)
  }

  function Run(state: State, events: seq<Event>): State
    decreases |events|
  {
    if events == [] then state else Run(Step(state, events[0]), events[1..])
  }

  /** Drawing never loads a model: until a load succeeds, every prediction reports "not loaded". */
  lemma {:induction false} GuardHoldsUntilLoaded(state: State, events: seq<Event>, data: seq<Pixels.Byte>, f: Forward)
    requires !state.modelLoaded
    requires LoadFinished(true) !in events
    requires |data| == Pixels.BufferLength
    ensures Predict(Run(state, events), data, f) == NotLoaded
    decreases |events|
  {
    if events != [] {
      assert events[0] != LoadFinished(true);
      assert LoadFinished(true) !in events[1..];
      GuardHoldsUntilLoaded(Step(state, events[0]), events[1..], data, f);
    }
  }

  /** The page events of a sequence of mouse events. */
  function MouseEvents(es: seq<Surface.MouseEvent>): (events: seq<Event>)
    ensures |events| == |es|
    ensures forall i :: 0 <= i < |es| ==> events[i] == Mouse(es[i])
  {
    seq(|es|, i requires 0 <= i < |es| => Mouse(es[i]))
  }

  /** On mouse events alone the page's pointer state is the surface's own run, and the model flag is untouched. */
  lemma {:induction false} MouseEventsDriveSurface(state: State, es: seq<Surface.MouseEvent>)
    ensures Run(state, MouseEvents(es)) == State(state.modelLoaded, Surface.Run(state.surface, es))
    decreases |es|
  {
    if es != [] {
      assert MouseEvents(es)[1..] == MouseEvents(es[1..]);
      MouseEventsDriveSurface(Step(state, Mouse(es[0])), es[1..]);
    }
  }

  /** Once loaded, the model stays loaded whatever the pointer does and however later loads end. */
  lemma {:induction false} LoadedStaysLoaded(state: State, events: seq<Event>)
    requires state.modelLoaded
    ensures Run(state, events).modelLoaded
    decreases |events|
  {
    if events != [] {
      LoadedStaysLoaded(Step(state, events[0]), events[1..]);
    }
  }

  /** Probabilities peaking at index 2 show the table's entry "airplane" at 0.7. */
  lemma WorkedExample(state: State, data: seq<Pixels.Byte>, f: Forward)
    requires state.modelLoaded && |data| == Pixels.BufferLength
    requires f(Pixels.InputTensor(data)).Success?
    requires f(Pixels.InputTensor(data)).value == [0.1, 0.05, 0.7, 0.05, 0.05, 0.025, 0.0125, 0.0125]
    ensures Predict(state, data, f) == Shown("airplane", 2, 0.7)
  {
    var probs: Decision.ProbVector := [0.1, 0.05, 0.7, 0.05, 0.05, 0.025, 0.0125, 0.0125];
    assert Decision.IsFirstMax(probs, 2);
    Decision.FirstMaxCharacterized(probs, 2);
    assert Decision.FirstMax(probs) == 2;
    assert Predict(state, data, f) == Shown(Labels.LabelAt(2), 2, probs[2]);
  }

  /**
   A blank drawing classified by a model that puts all its weight on index 0
   shows the empty placeholder label at probability 1: index 0 is not filtered.
   */
  lemma BlankShowsPlaceholder(state: State, data: seq<Pixels.Byte>, f: Forward)
    requires state.modelLoaded && |data| == Pixels.BufferLength
    requires Pixels.AllWhite(data)
    requires f(Tensor.Tensor4d(seq(Pixels.PixelCount, _ => 0.0), Pixels.InputShape)).Success?
    requires f(Tensor.Tensor4d(seq(Pixels.PixelCount, _ => 0.0), Pixels.InputShape)).value
             == [1.0, 0.0, 0.0, 0.0, 0.0, 0.0, 0.0, 0.0]
    ensures Predict(state, data, f) == Shown("", 0, 1.0)
  {
    Pixels.BlankIffAllZero(data);
    var probs: Decision.ProbVector := [1.0, 0.0, 0.0, 0.0, 0.0, 0.0, 0.0, 0.0];
    Decision.FirstMaxCharacterized(probs, 0);
  }
}
