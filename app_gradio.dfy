/**
 * The Gradio front end's `predict_sign`: bring the uploaded pixel array to
 * three channels in the blue-green-red order the JPEG encoder expects, encode
 * it, run the model, and answer with the best letter and a label-to-score
 * dictionary of the top five. Every exception becomes an error message with
 * an empty dictionary.
 *
 * The encoder (`cv2.imencode`) and the model (`sess.run`) are function
 * parameters; the label list is the one parsed at module load.
 */
module GradioApp {
  import opened Common
  import opened Labels
  import opened Ranking


  /**
   * Layout of the numpy array: two-dimensional (grayscale), three-dimensional
   * with `count` channels, or of some other rank.
   */
  datatype Shape = Plane | Channels(count: nat) | OtherRank(rank: nat)

  /** An image: its layout and its pixels in row-major order, each pixel the tuple of its channel values. */
  datatype Image = Image(shape: Shape, pixels: seq<seq<Byte>>)

  /** Every pixel has as many values as the layout has channels (one for grayscale). */
  predicate WellFormed(img: Image) {
    match img.shape
    case Plane => forall i :: 0 <= i < |img.pixels| ==> |img.pixels[i]| == 1
    case Channels(c) => forall i :: 0 <= i < |img.pixels| ==> |img.pixels[i]| == c
    case OtherRank(rank) => rank != 2 && rank != 3
  }

  predicate IsThreeChannel(img: Image) {
    img.shape == Channels(3) && forall i :: 0 <= i < |img.pixels| ==> |img.pixels[i]| == 3
  }

  /** The exceptions the try block of `predict_sign` can meet. */
  datatype Fault =
    | NoImage                   // no image uploaded: `None` has no `shape`
    | UnsupportedLayout         // a layout the channel conversions reject
    | EmptyImage                // no pixels: `cvtColor` asserts its input is not empty
    | ModelFault(detail: string) // `sess.run` raised
    | LabelMissing              // a ranked index past the end of the label list
    | NoScores                  // `top_k[0]` on an empty ranking

  /** Text of the exception, where Python or numpy fixes it. */
  function FaultDetail(f: Fault): string {
    match f
    case NoImage => "'NoneType' object has no attribute 'shape'"
    case UnsupportedLayout => "unsupported channel layout"
    case EmptyImage => "(-215:Assertion failed) !_src.empty() in function 'cvtColor'"
    case ModelFault(detail) => detail
    case LabelMissing => IndexErrorText
    case NoScores => "index 0 is out of bounds for axis 0 with size 0"
  }

  /** The first element of `predict_sign`'s answer. */
  datatype Reply =
    | Recognized(letter: string, confidence: real)
    | EncodeFailed
    | Error(fault: Fault)

  const EncodeFailedText: string := "❌ Failed to encode image"
  const ErrorPrefix: string := "❌ Error processing image: "

  /** The message shown for a reply that is not a recognised letter. */
  function FailureText(r: Reply): (text: string)
    requires !r.Recognized?
    ensures r.Error? ==> ErrorPrefix <= text
    ensures r.EncodeFailed? ==> text == EncodeFailedText
  {
    if r.EncodeFailed? then EncodeFailedText else ErrorPrefix + FaultDetail(r.fault)
  }

  /** `predict_sign`'s answer: the reply and the label-to-score dictionary. */
  datatype SignOutput = SignOutput(reply: Reply, confidences: map<string, real>)

  // ---------------------------------------------------------------------------
  // Channel normalisation (lines 53-59).

  /** `COLOR_GRAY2RGB`: each grey value becomes three equal channels. */
  function GrayToRgb(img: Image): (r: Image)
    requires img.shape == Plane && WellFormed(img)
    ensures IsThreeChannel(r) && |r.pixels| == |img.pixels|
    ensures forall i :: 0 <= i < |r.pixels| ==> forall c :: 0 <= c < 3 ==> r.pixels[i][c] == img.pixels[i][0]
  {
    Image(Channels(3), seq(|img.pixels|, i requires 0 <= i < |img.pixels| =>
      var g := img.pixels[i][0]; [g, g, g]))
  }

  /** `COLOR_RGBA2RGB`: each pixel keeps its first three channels; alpha is dropped. */
  function DropAlpha(img: Image): (r: Image)
    requires img.shape == Channels(4) && WellFormed(img)
    ensures IsThreeChannel(r) && |r.pixels| == |img.pixels|
    ensures forall i :: 0 <= i < |r.pixels| ==> r.pixels[i] == img.pixels[i][..3]
  {
    Image(Channels(3), seq(|img.pixels|, i requires 0 <= i < |img.pixels| => img.pixels[i][..3]))
  }

  /** `COLOR_RGB2BGR`: channels 0 and 2 trade places, channel 1 stays. */
  function SwapRedBlue(img: Image): (r: Image)
    requires IsThreeChannel(img)
    ensures IsThreeChannel(r) && |r.pixels| == |img.pixels|
    ensures forall i :: 0 <= i < |r.pixels| ==>
              r.pixels[i][0] == img.pixels[i][2] && r.pixels[i][1] == img.pixels[i][1] && r.pixels[i][2] == img.pixels[i][0]
  {
    Image(Channels(3), seq(|img.pixels|, i requires 0 <= i < |img.pixels| =>
      var p := img.pixels[i]; [p[2], p[1], p[0]]))
  }

  /** Swapping red and blue twice gives the image back: the encoder's buffer still holds every colour. */
  lemma SwapRedBlueInvolution(img: Image)
    requires IsThreeChannel(img)
    ensures SwapRedBlue(SwapRedBlue(img)) == img
  {
    var back := SwapRedBlue(SwapRedBlue(img));
    forall i | 0 <= i < |img.pixels| ensures back.pixels[i] == img.pixels[i] {
      assert |back.pixels[i]| == 3 == |img.pixels[i]|;
    }
  }

  /** The layouts the channel conversions of lines 53-59 accept. */
  predicate ConvertibleLayout(shape: Shape) {
    shape in {Plane, Channels(3), Channels(4)}
  }

  /**
   * Lines 53-59: grayscale is expanded, four channels lose alpha, and the
   * result is reordered to blue-green-red. An array of rank other than 2 or 3
   * is rejected (`image.shape[2]`). Otherwise some `cvtColor` runs, and on
   * an image without pixels it fails its non-empty assertion before it looks
   * at the channel count; with pixels, a channel count other than 1, 3 or 4
   * is rejected by the conversion at line 59.
   */
  function PrepareForEncoding(img: Image): (r: Result<Image, Fault>)
    requires WellFormed(img)
    ensures r.Ok? <==> ConvertibleLayout(img.shape) && |img.pixels| > 0
    ensures r.Err? ==> r.error == if !img.shape.OtherRank? && |img.pixels| == 0 then EmptyImage else UnsupportedLayout
    ensures r.Ok? ==> IsThreeChannel(r.value) && |r.value.pixels| == |img.pixels|
  {
    if img.shape.OtherRank? then Err(UnsupportedLayout)
    else if |img.pixels| == 0 then Err(EmptyImage)
    else if !ConvertibleLayout(img.shape) then Err(UnsupportedLayout)
    else
      match img.shape
      case Plane => Ok(SwapRedBlue(GrayToRgb(img)))
      case Channels(c) =>
        if c == 4 then Ok(SwapRedBlue(DropAlpha(img))) else Ok(SwapRedBlue(img))
  }

  /** A grayscale pixel reaches the encoder as three copies of its grey value. */
  lemma GrayBecomesThreeEqualChannels(img: Image, i: nat)
    requires img.shape == Plane && WellFormed(img) && i < |img.pixels|
    ensures var g := img.pixels[i][0];
            PrepareForEncoding(img).Ok? && PrepareForEncoding(img).value.pixels[i] == [g, g, g]
  {
    var out := PrepareForEncoding(img).value;
    assert |out.pixels[i]| == 3;
  }

  /**
   * A colour pixel reaches the encoder as (blue, green, red) of its first three
   * channels; any alpha channel is gone.
   */
  lemma ColourIsReorderedToBgr(img: Image, i: nat)
    requires img.shape in {Channels(3), Channels(4)} && WellFormed(img) && i < |img.pixels|
    ensures var p := img.pixels[i];
            PrepareForEncoding(img).Ok? && PrepareForEncoding(img).value.pixels[i] == [p[2], p[1], p[0]]
  {
    var out := PrepareForEncoding(img).value;
    assert |out.pixels[i]| == 3;
  }

  // ---------------------------------------------------------------------------
  // The confidence dictionary (lines 75-78).

  /**
   * `{label_lines[i]: scores[i] for i in top}`: built left to right, so a
   * label met twice keeps the later score; None stands for the IndexError of
   * a ranked index that has no label.
   */
  function ConfidenceDict(labels: seq<string>, scores: seq<real>, top: seq<nat>): (d: Option<map<string, real>>)
    requires InRange(|scores|, top)
    ensures d.Some? <==> forall j :: 0 <= j < |top| ==> top[j] < |labels|
    decreases |top|
  {
    if top == [] then Some(map[])
    else
      var n := |top| - 1;
      var last := top[n];
      match ConfidenceDict(labels, scores, top[..n])
      case None => None
      case Some(m) =>
        if last >= |labels| then None
        else Some(m[labels[last] := scores[last]])
  }

  /** The dictionary has at most one key per ranked index. */
  lemma {:induction false} ConfidenceDictSize(labels: seq<string>, scores: seq<real>, top: seq<nat>)
    requires InRange(|scores|, top) && ConfidenceDict(labels, scores, top).Some?
    ensures |ConfidenceDict(labels, scores, top).value.Keys| <= |top|
    decreases |top|
  {
    if top != [] {
      var n := |top| - 1;
      var m := ConfidenceDict(labels, scores, top[..n]).value;
      ConfidenceDictSize(labels, scores, top[..n]);
      var key := labels[top[n]];
      var d := ConfidenceDict(labels, scores, top).value;
      assert d.Keys == m.Keys + {key};
      if key !in m.Keys {
        assert |m.Keys + {key}| == |m.Keys| + 1;
      } else {
        assert m.Keys + {key} == m.Keys;
      }
    }
  }

  /** The label of every ranked index is a key of the dictionary. */
  lemma {:induction false} ConfidenceDictCoversTop(labels: seq<string>, scores: seq<real>, top: seq<nat>)
    requires InRange(|scores|, top) && ConfidenceDict(labels, scores, top).Some?
    ensures forall j :: 0 <= j < |top| ==> labels[top[j]] in ConfidenceDict(labels, scores, top).value
    decreases |top|
  {
    if top != [] {
      var n := |top| - 1;
      ConfidenceDictCoversTop(labels, scores, top[..n]);
      var d := ConfidenceDict(labels, scores, top).value;
      forall j | 0 <= j < |top| ensures labels[top[j]] in d {
        if j < n {
          assert top[j] == top[..n][j];
        }
      }
    }
  }

  /** Each key of the dictionary maps to the score of a ranked index that carries it. */
  lemma {:induction false} ConfidenceDictFromTop(labels: seq<string>, scores: seq<real>, top: seq<nat>)
    requires InRange(|scores|, top) && ConfidenceDict(labels, scores, top).Some?
    ensures var d := ConfidenceDict(labels, scores, top).value;
            forall key :: key in d ==>
              exists j :: 0 <= j < |top| && labels[top[j]] == key && d[key] == scores[top[j]]
    decreases |top|
  {
    if top != [] {
      var n := |top| - 1;
      var last := top[n];
      var m := ConfidenceDict(labels, scores, top[..n]).value;
      ConfidenceDictFromTop(labels, scores, top[..n]);
      var d := ConfidenceDict(labels, scores, top).value;
      forall key | key in d
        ensures exists j :: 0 <= j < |top| && labels[top[j]] == key && d[key] == scores[top[j]]
      {
        if key == labels[last] {
          assert labels[top[n]] == key && d[key] == scores[top[n]];
        } else {
          var j :| 0 <= j < n && labels[top[..n][j]] == key && m[key] == scores[top[..n][j]];
          assert top[j] == top[..n][j];
        }
      }
    }
  }

  /** A ranked index whose label no later ranked index repeats keeps its own score in the dictionary. */
  lemma {:induction false} ConfidenceDictLastWins(labels: seq<string>, scores: seq<real>, top: seq<nat>, j: nat)
    requires InRange(|scores|, top) && ConfidenceDict(labels, scores, top).Some?
    requires j < |top| && LastWithLabel(labels, top, j)
    ensures labels[top[j]] in ConfidenceDict(labels, scores, top).value
    ensures ConfidenceDict(labels, scores, top).value[labels[top[j]]] == scores[top[j]]
    decreases |top|
  {
    var n := |top| - 1;
    if j < n {
      assert top[j] == top[..n][j];
      assert labels[top[n]] != labels[top[j]];
      forall k | j < k < n ensures labels[top[..n][k]] != labels[top[..n][j]] {
        assert top[..n][k] == top[k];
      }
      ConfidenceDictLastWins(labels, scores, top[..n], j);
    }
  }

  /** No later ranked index carries the same label as index j. */
  predicate LastWithLabel(labels: seq<string>, top: seq<nat>, j: nat)
    requires j < |top| && forall k :: 0 <= k < |top| ==> top[k] < |labels|
  {
    forall k :: j < k < |top| ==> labels[top[k]] != labels[top[j]]
  }

  // ---------------------------------------------------------------------------
  // The whole of `predict_sign`.

  /** The scores the model returns for `image`, when the pipeline gets that far. */
  function EncodedImageScores(image: Option<Image>, encode: Image -> Option<Bytes>,
                       run: Bytes -> Result<seq<real>, string>): Option<seq<real>>
    requires image.Some? ==> WellFormed(image.value)
  {
    if image.None? then None
    else
      match PrepareForEncoding(image.value)
      case Err(_) => None
      case Ok(buffer) =>
        match encode(buffer)
        case None => None
        case Some(bytes) =>
          match run(bytes)
          case Err(_) => None
          case Ok(scores) => Some(scores)
  }

  /**
   * `predict_sign(image)`. `order` is the order numpy's argsort returned for
   * the model's scores. Every answer other than a recognised letter comes
   * with an empty dictionary. Each stage's failure gives its own reply: no
   * image, the normalisation fault, the fixed encode-failure text (exactly
   * when normalisation succeeds and the encoder fails), the model's
   * exception. Once the model has answered, the answer is ReplyForScores of
   * its scores, and a recognised letter is the best of them (RecognizesBest).
   */
  function PredictSign(image: Option<Image>, labels: seq<string>, encode: Image -> Option<Bytes>,
                       run: Bytes -> Result<seq<real>, string>, order: seq<nat>): (out: SignOutput)
    requires image.Some? ==> WellFormed(image.value)
    requires EncodedImageScores(image, encode, run).Some? ==> IsArgsort(EncodedImageScores(image, encode, run).value, order)
    ensures !out.reply.Recognized? ==> out.confidences == map[]
    ensures image.None? ==> out.reply == Error(NoImage)
    ensures image.Some? && PrepareForEncoding(image.value).Err? ==>
              out.reply == Error(PrepareForEncoding(image.value).error)
    ensures out.reply.EncodeFailed? <==>
              image.Some? && PrepareForEncoding(image.value).Ok? && encode(PrepareForEncoding(image.value).value).None?
    ensures image.Some? && PrepareForEncoding(image.value).Ok? && encode(PrepareForEncoding(image.value).value).Some? ==>
              var result := run(encode(PrepareForEncoding(image.value).value).value);
              result.Err? ==> out.reply == Error(ModelFault(result.error))
    ensures EncodedImageScores(image, encode, run).Some? ==>
              out == ReplyForScores(labels, EncodedImageScores(image, encode, run).value, order)
    ensures out.reply.Recognized? ==>
              && EncodedImageScores(image, encode, run).Some?
              && RecognizesBest(out, labels, EncodedImageScores(image, encode, run).value, order)
  {
    if image.None? then SignOutput(Error(NoImage), map[])
    else
      match PrepareForEncoding(image.value)
      case Err(f) => SignOutput(Error(f), map[])
      case Ok(buffer) =>
        match encode(buffer)
        case None => SignOutput(EncodeFailed, map[])
        case Some(bytes) =>
          match run(bytes)
          case Err(detail) => SignOutput(Error(ModelFault(detail)), map[])
          case Ok(scores) => ReplyForScores(labels, scores, order)
  }

  /**
   * The end of `predict_sign` once the model has answered: rank the top five,
   * build the confidence dictionary, and report the best-ranked label. A
   * letter is recognised exactly when there are scores and every ranked index
   * has a label; otherwise the error is the label lookup's or `top_k[0]`'s.
   */
  function ReplyForScores(labels: seq<string>, scores: seq<real>, order: seq<nat>): (out: SignOutput)
    requires IsArgsort(scores, order)
    ensures out.reply.Recognized? <==>
              |scores| > 0 && forall j :: 0 <= j < |TopK(order, TopCount)| ==> TopK(order, TopCount)[j] < |labels|
    ensures !out.reply.Recognized? ==>
              out.reply in {Error(LabelMissing), Error(NoScores)} && out.confidences == map[]
    ensures out.reply == Error(NoScores) <==> scores == []
    ensures RecognizesBest(out, labels, scores, order)
  {
    ArgsortIsPermutation(scores, order);
    var top := TopK(order, TopCount);
    match ConfidenceDict(labels, scores, top)
    case None => SignOutput(Error(LabelMissing), map[])
    case Some(d) =>
      if top == [] then SignOutput(Error(NoScores), map[])
      else
        RecognizedReplyIsBest(labels, scores, order, d);
        SignOutput(Recognized(labels[top[0]], scores[top[0]]), d)
  }

  /** The reply naming the head of the top five, with the top five's dictionary, is the best answer. */
  lemma RecognizedReplyIsBest(labels: seq<string>, scores: seq<real>, order: seq<nat>, d: map<string, real>)
    requires IsArgsort(scores, order)
    requires TopK(order, TopCount) != [] && ConfidenceDict(labels, scores, TopK(order, TopCount)) == Some(d)
    ensures var top := TopK(order, TopCount);
            RecognizesBest(SignOutput(Recognized(labels[top[0]], scores[top[0]]), d), labels, scores, order)
  {
    var top := TopK(order, TopCount);
    TopKSelects(scores, order, TopCount);
    TopKHeadIsBest(scores, TopCount, top);
    ConfidenceDictIsDictionaryOf(labels, scores, top);
  }

  /**
   * When encoding fails the answer is the fixed message with an empty
   * dictionary, whatever the model and the ranking would have been: the
   * model is not consulted.
   */
  lemma EncodeFailureSkipsModel(image: Image, labels: seq<string>, encode: Image -> Option<Bytes>,
                                run1: Bytes -> Result<seq<real>, string>, order1: seq<nat>,
                                run2: Bytes -> Result<seq<real>, string>, order2: seq<nat>)
    requires WellFormed(image)
    requires PrepareForEncoding(image).Ok? && encode(PrepareForEncoding(image).value).None?
    ensures PredictSign(Some(image), labels, encode, run1, order1) == SignOutput(EncodeFailed, map[])
    ensures PredictSign(Some(image), labels, encode, run1, order1) == PredictSign(Some(image), labels, encode, run2, order2)
  {
  }

  /**
   * `d` is the confidence dictionary of the ranked indices `top`: at most one
   * key per ranked index, the label of each ranked index a key, each key
   * mapped to the score of a ranked index carrying it, and that index the
   * last one carrying it (a repeated label keeps the later score).
   */
  predicate IsDictionaryOf(d: map<string, real>, labels: seq<string>, scores: seq<real>, top: seq<nat>)
    requires InRange(|scores|, top)
  {
    && (forall j :: 0 <= j < |top| ==> top[j] < |labels|)
    && |d.Keys| <= |top|
    && (forall j :: 0 <= j < |top| ==> labels[top[j]] in d)
    && (forall key :: key in d ==> exists j :: 0 <= j < |top| && labels[top[j]] == key && d[key] == scores[top[j]])
    && (forall j :: 0 <= j < |top| && LastWithLabel(labels, top, j) ==> d[labels[top[j]]] == scores[top[j]])
  }

  /**
   * What a recognised answer for `scores` promises: the letter is the label
   * of the head of a top-five selection, no index outscores it, and the
   * dictionary is that selection's (so it holds the letter and has at most
   * min(5, n) keys).
   */
  predicate RecognizesBest(out: SignOutput, labels: seq<string>, scores: seq<real>, order: seq<nat>) {
    out.reply.Recognized? ==>
      var top := TopK(order, TopCount);
      && IsTopK(scores, TopCount, top)
      && |top| > 0 && top[0] < |labels|
      && out.reply == Recognized(labels[top[0]], scores[top[0]])
      && (forall x :: 0 <= x < |scores| ==> scores[x] <= out.reply.confidence)
      && IsDictionaryOf(out.confidences, labels, scores, top)
  }

  /** The dictionary built from a complete ranking is that ranking's dictionary. */
  lemma ConfidenceDictIsDictionaryOf(labels: seq<string>, scores: seq<real>, top: seq<nat>)
    requires InRange(|scores|, top) && ConfidenceDict(labels, scores, top).Some?
    ensures IsDictionaryOf(ConfidenceDict(labels, scores, top).value, labels, scores, top)
  {
    ConfidenceDictSize(labels, scores, top);
    ConfidenceDictCoversTop(labels, scores, top);
    ConfidenceDictFromTop(labels, scores, top);
    var d := ConfidenceDict(labels, scores, top).value;
    forall j | 0 <= j < |top| && LastWithLabel(labels, top, j)
      ensures d[labels[top[j]]] == scores[top[j]]
    {
      ConfidenceDictLastWins(labels, scores, top, j);
    }
  }
}
