/**
 * The classification-label composer (`modulos/reconocimiento.py`): argmax
 * with a confidence threshold, the dominant HSV colour, and the assembly of
 * the `"id name_prefix colour"` answer the control loop reads.
 *
 * The two TFLite interpreters and the cv2 image pipeline are outside the
 * model: for each frame they are represented by what they produce, the two
 * probability vectors and the pixel count of each colour mask.
 */
module Recognition {
  import opened Wrappers
  import opened Text
  import opened RealMath
  import Execution

  /** The answer for "nothing recognised". */
  const EMPTY: string := "vacio_vacio"
  /** `detectar_color_hsv`'s answer when no colour covers enough of the frame. */
  const NO_COLOUR: string := "vacio"
  const UNKNOWN: string := "desconocido"
  /** The colours of `COLOR_RANGES` that have ranges, in their order. */
  const COLOURS: seq<string> := ["rojo", "verde", "azul"]

  /** What the interpreters and the colour masks produce for one captured frame. */
  datatype Frame = Frame(
    shapeOutput: Option<seq<real>>,   // the shape model's probabilities; None when inference raises
    colourOutput: Option<seq<real>>,  // the colour model's probabilities; None when inference raises
    maskCounts: seq<nat>,             // non-zero pixels of each colour mask, in `COLOURS` order
    area: nat)                        // height times width of the frame

  /** The failure that escapes `reconocimiento_de_objetos`. */
  datatype RecognitionError = LabelIndexOutOfRange

  /** `np.argmax`: the first index holding the largest value. */
  function ArgMax(xs: seq<real>): (k: nat)
    requires xs != []
    ensures k < |xs|
    ensures forall j :: 0 <= j < |xs| ==> xs[j] <= xs[k]
    ensures forall j :: 0 <= j < k ==> xs[j] < xs[k]
  {
    if |xs| == 1 then 0
    else
      var init := xs[..|xs| - 1];
      var k := ArgMax(init);
      assert forall j :: 0 <= j < |init| ==> init[j] == xs[j];
      if xs[|xs| - 1] > xs[k] then |xs| - 1 else k
  }

  /**
   * `obtener_prediccion`: the first most probable class when its probability
   * reaches the threshold; nothing when inference raised (`None`), when there
   * is no class (argmax of an empty vector raises) or when no class reaches
   * the threshold.
   */
  function Predict(output: Option<seq<real>>, threshold: real): (r: Option<nat>)
    ensures r.Some? ==> output.Some? && r.value < |output.value| && output.value[r.value] >= threshold
    ensures r.Some? ==> forall j :: 0 <= j < |output.value| ==>
      output.value[j] <= output.value[r.value] && (j < r.value ==> output.value[j] < output.value[r.value])
    ensures r.None? <==> output.None? || forall j :: 0 <= j < |output.value| ==> output.value[j] < threshold
  {
    match output
    case None => None
    case Some(xs) =>
      if xs == [] then None
      else
        var k := ArgMax(xs);
        if xs[k] < threshold then None else Some(k)
  }

  /** The counts as reals, for `ArgMax`. */
  function AsReals(xs: seq<nat>): (r: seq<real>)
    ensures |r| == |xs| && forall i :: 0 <= i < |xs| ==> r[i] == xs[i] as real
  {
    if xs == [] then [] else [xs[0] as real] + AsReals(xs[1..])
  }

  /**
   * The decision of `detectar_color_hsv`: "vacio" when even the largest mask
   * covers less than `ratio` of the frame, otherwise the colour with the
   * largest mask, the first one on ties.
   */
  function HsvColour(counts: seq<nat>, area: nat, ratio: real): (r: string)
    requires |counts| == |COLOURS| && area > 0
    ensures r == NO_COLOUR || r in COLOURS
    ensures r == NO_COLOUR <==> forall j :: 0 <= j < |counts| ==> counts[j] as real / area as real < ratio
    ensures forall k :: 0 <= k < |COLOURS| && r == COLOURS[k] ==>
      (forall j :: 0 <= j < |counts| ==> counts[j] <= counts[k]) &&
      (forall j :: 0 <= j < k ==> counts[j] < counts[k])
  {
    var k := ArgMax(AsReals(counts));
    forall j | 0 <= j < |counts|
      ensures counts[j] as real / area as real <= counts[k] as real / area as real
    {
      DivMonotone(counts[j] as real, counts[k] as real, area as real);
    }
    if counts[k] as real / area as real < ratio then NO_COLOUR else COLOURS[k]
  }

  /**
   * `detectar_color_hsv`, once the masks are counted: the counts are entered
   * colour by colour and the first largest one is kept.
   */
  method DetectColourHsv(counts: seq<nat>, area: nat, ratio: real) returns (colour: string)
    requires |counts| == |COLOURS| && area > 0
    ensures colour == HsvColour(counts, area, ratio)
  {
    var best := 0;
    var i := 1;
    while i < |COLOURS|
      invariant 1 <= i <= |COLOURS| && best < i
      invariant forall j :: 0 <= j < i ==> counts[j] <= counts[best]
      invariant forall j :: 0 <= j < best ==> counts[j] < counts[best]
    {
      if counts[i] > counts[best] {
        best := i;
      }
      i := i + 1;
    }
    assert best == ArgMax(AsReals(counts)) by {
      var k := ArgMax(AsReals(counts));
      assert counts[k] <= counts[best] && counts[best] <= counts[k];
    }
    if counts[best] as real / area as real < ratio {
      colour := NO_COLOUR;
    } else {
      colour := COLOURS[best];
    }
  }

  /**
   * `label.split(' ', 1)` of a shape label: id and name, or the whole label
   * and "desconocido" when there is no space.
   */
  function ShapeParts(text: string): (r: (string, string))
    ensures ' ' in text ==> text == r.0 + " " + r.1 && ' ' !in r.0
    ensures ' ' !in text ==> r == (text, UNKNOWN)
  {
    match SplitOnce(text, ' ')
    case None => (text, UNKNOWN)
    case Some(parts) => parts
  }

  /** The separator of a colour label: the first '_' if it has one, else the first space. */
  function Separator(text: string): char {
    if '_' in text then '_' else ' '
  }

  /** A colour label split into prefix and name at its separator, when it has one. */
  function ColourParts(text: string): (r: Option<(string, string)>)
    ensures r.Some? <==> '_' in text || ' ' in text
    ensures r.Some? ==> text == r.value.0 + [Separator(text)] + r.value.1 && Separator(text) !in r.value.0
  {
    SplitOnce(text, Separator(text))
  }

  /** The colour label's name is `colour`, ignoring case. */
  predicate Names(text: string, colour: string) {
    ColourParts(text).Some? && Lower(ColourParts(text).value.1) == Lower(colour)
  }

  /** The first colour label, from `from` on, that names `colour`. */
  function FirstNaming(names: seq<string>, colour: string, from: nat := 0): (r: Option<nat>)
    requires from <= |names|
    ensures r.Some? ==> from <= r.value < |names| && Names(names[r.value], colour)
    decreases |names| - from
  {
    if from == |names| then None
    else if Names(names[from], colour) then Some(from)
    else FirstNaming(names, colour, from + 1)
  }

  /** The label found is the first naming `colour`, and none is found only when no label names it. */
  lemma {:induction false} FirstNamingIsFirst(names: seq<string>, colour: string, from: nat)
    requires from <= |names|
    ensures var r := FirstNaming(names, colour, from);
      (r.Some? ==> forall j :: from <= j < r.value ==> !Names(names[j], colour)) &&
      (r.None? ==> forall j :: from <= j < |names| ==> !Names(names[j], colour))
    decreases |names| - from
  {
    if from < |names| && !Names(names[from], colour) {
      var r := FirstNaming(names, colour, from + 1);
      assert FirstNaming(names, colour, from) == r;
      FirstNamingIsFirst(names, colour, from + 1);
      forall j | from <= j < (if r.Some? then r.value else |names|)
        ensures !Names(names[j], colour)
      {
        if j == from {
        }
      }
    }
  }

  /** The prefix of the first colour label naming `colour`. */
  function PrefixFor(names: seq<string>, colour: string): Option<string> {
    match FirstNaming(names, colour)
    case None => None
    case Some(k) => Some(ColourParts(names[k]).value.0)
  }

  /** The colour-prefix search: scan the colour labels in order and stop at the first match. */
  method FindColourPrefix(names: seq<string>, colour: string) returns (prefix: Option<string>)
    ensures prefix == PrefixFor(names, colour)
  {
    prefix := None;
    var i := 0;
    while i < |names|
      invariant 0 <= i <= |names|
      invariant FirstNaming(names, colour) == FirstNaming(names, colour, i)
    {
      var parts := ColourParts(names[i]);
      if parts.Some? && Lower(parts.value.1) == Lower(colour) {
        prefix := Some(parts.value.0);
        return;
      }
      i := i + 1;
    }
  }

  /** The answer for an object: `"{id} {name}_{prefix} {colour}"`. */
  function Output(id: string, name: string, prefix: string, colour: string): string {
    id + " " + name + "_" + prefix + " " + colour
  }

  /**
   * The colour half of the answer: the HSV colour with its label prefix when
   * one was found, else the predicted colour label split at its separator,
   * else "0 desconocido".
   */
  function ColourHalf(hsv: string, prefix: Option<string>, colourLabel: string): (string, string) {
    if prefix.Some? && hsv != NO_COLOUR then (prefix.value, hsv)
    else match ColourParts(colourLabel)
      case Some(parts) => parts
      case None => ("0", UNKNOWN)
  }

  /** A label that mentions "vacio" in any letter case. */
  predicate MentionsEmpty(text: string) {
    Contains(Lower(text), NO_COLOUR)
  }

  /**
   * `reconocimiento_de_objetos`. A missing frame, a failed or unconfident
   * prediction and a label mentioning "vacio" all give "vacio_vacio"; a
   * predicted class with no label raises (IndexError); otherwise the answer
   * joins the shape label's id and name with the colour half.
   */
  method Recognize(frame: Option<Frame>, shapeLabels: seq<string>, colourLabels: seq<string>,
                   shapeThreshold: real, colourThreshold: real) returns (r: Result<string, RecognitionError>)
    requires frame.Some? ==> |frame.value.maskCounts| == |COLOURS| && frame.value.area > 0
    ensures frame.None? ==> r == Ok(EMPTY)
    ensures frame.Some? ==>
      var f := frame.value;
      var sp := Predict(f.shapeOutput, shapeThreshold);
      var cp := Predict(f.colourOutput, colourThreshold);
      (sp.None? ==> r == Ok(EMPTY)) &&
      (sp.Some? && sp.value >= |shapeLabels| ==> r == Err(LabelIndexOutOfRange)) &&
      (sp.Some? && sp.value < |shapeLabels| && cp.None? ==> r == Ok(EMPTY)) &&
      (sp.Some? && sp.value < |shapeLabels| && cp.Some? && cp.value >= |colourLabels| ==>
        r == Err(LabelIndexOutOfRange)) &&
      (sp.Some? && sp.value < |shapeLabels| && cp.Some? && cp.value < |colourLabels| ==>
        var shape := shapeLabels[sp.value];
        var colour := colourLabels[cp.value];
        (MentionsEmpty(shape) || MentionsEmpty(colour) ==> r == Ok(EMPTY)) &&
        (!MentionsEmpty(shape) && !MentionsEmpty(colour) ==>
          var hsv := HsvColour(f.maskCounts, f.area, 0.01);
          var (p, c) := ColourHalf(hsv, if hsv != NO_COLOUR then PrefixFor(colourLabels, hsv) else None, colour);
          r == Ok(Output(ShapeParts(shape).0, ShapeParts(shape).1, p, c))))
  {
    if frame.None? {
      return Ok(EMPTY);
    }
    var f := frame.value;
    var shapeClass := Predict(f.shapeOutput, shapeThreshold);
    if shapeClass.None? {
      return Ok(EMPTY);
    }
    if shapeClass.value >= |shapeLabels| {
      return Err(LabelIndexOutOfRange);
    }
    var shape := shapeLabels[shapeClass.value];
    var colourClass := Predict(f.colourOutput, colourThreshold);
    if colourClass.None? {
      return Ok(EMPTY);
    }
    if colourClass.value >= |colourLabels| {
      return Err(LabelIndexOutOfRange);
    }
    var colour := colourLabels[colourClass.value];
    if MentionsEmpty(shape) || MentionsEmpty(colour) {
      return Ok(EMPTY);
    }
    var hsv := DetectColourHsv(f.maskCounts, f.area, 0.01);
    var (id, name) := ShapeParts(shape);
    var prefix: Option<string> := None;
    if hsv != NO_COLOUR {
      prefix := FindColourPrefix(colourLabels, hsv);
    }
    var (p, c) := ColourHalf(hsv, prefix, colour);
    r := Ok(Output(id, name, p, c));
  }

  /** An object's answer always contains a space, so it is never taken for "vacio_vacio". */
  lemma OutputIsNotEmpty(id: string, name: string, prefix: string, colour: string)
    ensures Output(id, name, prefix, colour) != EMPTY
  {
    var s := Output(id, name, prefix, colour);
    assert s[|id|] == ' ';
    assert ' ' !in EMPTY;
  }

  /**
   * When none of the four parts holds an underscore, the control loop's
   * `split('_')` recovers the shape half `"{id} {name}"` and the colour half
   * `"{prefix} {colour}"` of an answer.
   */
  lemma OutputSplits(id: string, name: string, prefix: string, colour: string)
    requires '_' !in id && '_' !in name && '_' !in prefix && '_' !in colour
    ensures Execution.SplitPair(Output(id, name, prefix, colour)) == Some((id + " " + name, prefix + " " + colour))
  {
    var a, b := id + " " + name, prefix + " " + colour;
    assert '_' !in a && '_' !in b;
    assert Output(id, name, prefix, colour) == a + ['_'] + b;
    SplitOnceJoin(a, '_', b);
  }

  /** A shape label with a space is rebuilt exactly by the answer's shape half. */
  lemma ShapePartsRejoin(text: string)
    requires ' ' in text
    ensures ShapeParts(text).0 + " " + ShapeParts(text).1 == text
  {
  }
}
