/**
 * The web application's inference engine (`MLInferenceEngine`): it loads the
 * label list and the frozen classification graph once, remembers the session
 * and the output tensor, and ranks the model's scores into a top-5 result.
 *
 * TensorFlow is not modelled: what loading meets in the environment is a
 * LoadEnv value, and `sess.run` is a function parameter from the encoded
 * image to the score vector (or to the text of the exception it raised).
 */
module Inference {
  import opened Common
  import opened Labels
  import opened Ranking

  /** Opaque handle of a TensorFlow session. */
  datatype Session = Session(id: nat)

  /** Handle of a graph tensor, known by its name. */
  datatype Tensor = Tensor(name: string)

  /** The output tensor the engine fetches from the graph. */
  const ResultTensorName: string := "final_result:0"

  /**
   * What `_load_model` finds: the labels file's text (None when it cannot be
   * read), whether the graph file parses and imports, the session TensorFlow
   * opens, and whether the graph holds the output tensor.
   */
  datatype LoadEnv = LoadEnv(labelsFile: Option<string>, graphImports: bool, session: Session, tensorFound: bool)

  predicate LoadSucceeds(env: LoadEnv) {
    env.labelsFile.Some? && env.graphImports && env.tensorFound
  }

  /** One `{'label': ..., 'confidence': ...}` entry of `top_predictions`. */
  datatype Ranked = Ranked(name: string, confidence: real)  // keys 'label' and 'confidence'

  /** The dictionary `predict` returns. */
  datatype Prediction = Prediction(prediction: string, confidence: real, topPredictions: seq<Ranked>, success: bool)

  /** The exceptions `predict` raises. */
  datatype PredictError =
    | NotLoaded                       // raised before the model is consulted
    | PredictionFailed(detail: string) // any exception inside the try block, re-raised with a prefix

  const PredictionErrorPrefix: string := "Prediction error: "

  function ErrorMessage(e: PredictError): (msg: string)
    ensures e.PredictionFailed? ==> PredictionErrorPrefix <= msg
  {
    match e
    case NotLoaded => "Model not loaded. Cannot make predictions."
    case PredictionFailed(detail) => PredictionErrorPrefix + detail
  }

  /**
   * The list comprehension building `top_predictions`: one entry per ranked
   * index, pairing that index's label with its score; None stands for the
   * IndexError raised at the first ranked index that has no label.
   */
  function RankedEntries(labels: seq<string>, scores: seq<real>, top: seq<nat>): (r: Option<seq<Ranked>>)
    requires InRange(|scores|, top)
    ensures r.Some? <==> forall j :: 0 <= j < |top| ==> top[j] < |labels|
    ensures r.Some? ==> |r.value| == |top|
    ensures r.Some? ==> forall j :: 0 <= j < |top| ==> r.value[j] == Ranked(labels[top[j]], scores[top[j]])
  {
    if top == [] then Some([])
    else if top[0] >= |labels| then None
    else
      match RankedEntries(labels, scores, top[1..])
      case None => None
      case Some(rest) => Some([Ranked(labels[top[0]], scores[top[0]])] + rest)
  }

  /**
   * `p` reports the ranking `top` of `scores`: entry j pairs the label and the
   * score of index top[j], and the prediction and its confidence are the first entry's.
   */
  predicate ReportsRanking(p: Prediction, labels: seq<string>, scores: seq<real>, top: seq<nat>)
    requires InRange(|scores|, top)
  {
    && |p.topPredictions| == |top| > 0
    && (forall j :: 0 <= j < |top| ==> top[j] < |labels|)
    && (forall j :: 0 <= j < |top| ==> p.topPredictions[j] == Ranked(labels[top[j]], scores[top[j]]))
    && p.prediction == p.topPredictions[0].name
    && p.confidence == p.topPredictions[0].confidence
    && p.success
  }

  /**
   * Lines 84-103 given the ranked indices: the entries, then the best one
   * (`top_predictions[0]`). The result exists exactly when at least one index
   * is ranked and every ranked index has a label; it then reports the
   * ranking, and otherwise fails with Python's IndexError text.
   */
  function BuildPrediction(labels: seq<string>, scores: seq<real>, top: seq<nat>): (r: Result<Prediction, PredictError>)
    requires InRange(|scores|, top)
    ensures r.Ok? <==> |top| > 0 && forall j :: 0 <= j < |top| ==> top[j] < |labels|
    ensures r.Err? ==> r.error == PredictionFailed(IndexErrorText)
    ensures r.Ok? ==> ReportsRanking(r.value, labels, scores, top)
  {
    match RankedEntries(labels, scores, top)
    case None => Err(PredictionFailed(IndexErrorText))
    case Some(entries) =>
      if entries == [] then Err(PredictionFailed(IndexErrorText))
      else Ok(Prediction(entries[0].name, entries[0].confidence, entries, true))
  }

  /**
   * The reported confidences do not increase along the list, and the reported
   * confidence is the highest score of all.
   */
  predicate RanksBestFirst(p: Prediction, scores: seq<real>) {
    && (forall i, j :: 0 <= i < j < |p.topPredictions| ==>
          p.topPredictions[i].confidence >= p.topPredictions[j].confidence)
    && (forall x :: 0 <= x < |scores| ==> scores[x] <= p.confidence)
  }

  /**
   * When the indices are a top-k selection, the reported confidences do not
   * increase and the reported confidence is the highest score of all.
   */
  lemma {:induction false} RankingConfidences(labels: seq<string>, scores: seq<real>, k: nat, top: seq<nat>, p: Prediction)
    requires IsTopK(scores, k, top) && ReportsRanking(p, labels, scores, top)
    ensures RanksBestFirst(p, scores)
  {
    TopKHeadIsBest(scores, k, top);
    forall i, j | 0 <= i < j < |top| ensures p.topPredictions[i].confidence >= p.topPredictions[j].confidence {
      assert p.topPredictions[i].confidence == scores[top[i]];
      assert p.topPredictions[j].confidence == scores[top[j]];
    }
  }

  class Engine {
    var sess: Option<Session>
    var softmaxTensor: Option<Tensor>
    var labelLines: seq<string>

    /** `__init__`: both handles unset and no labels, then `_load_model`. */
    constructor (env: LoadEnv)
      ensures IsLoaded() <==> LoadSucceeds(env)
      ensures IsLoaded() ==> sess == Some(env.session) && softmaxTensor == Some(Tensor(ResultTensorName))
      ensures !IsLoaded() ==> sess.None? && softmaxTensor.None?
      ensures labelLines == if env.labelsFile.Some? then ParseLabels(env.labelsFile.value) else []
    {
      sess := None;
      softmaxTensor := None;
      labelLines := [];
      new;
      LoadModel(env);
    }

    /** `is_loaded`: both the session and the output tensor are set. */
    predicate IsLoaded()
      reads this
    {
      sess.Some? && softmaxTensor.Some?
    }

    /**
     * `_load_model`: read the labels, import the graph, open a session and
     * look up the output tensor; any failure resets both handles. Labels read
     * before a later step fails are kept.
     */
    method LoadModel(env: LoadEnv)
      modifies this
      ensures IsLoaded() <==> LoadSucceeds(env)
      ensures IsLoaded() ==> sess == Some(env.session) && softmaxTensor == Some(Tensor(ResultTensorName))
      ensures !IsLoaded() ==> sess.None? && softmaxTensor.None?
      ensures labelLines == if env.labelsFile.Some? then ParseLabels(env.labelsFile.value) else old(labelLines)
    {
      if env.labelsFile.None? {
        sess, softmaxTensor := None, None;
        return;
      }
      labelLines := ParseLabels(env.labelsFile.value);
      if !env.graphImports {
        sess, softmaxTensor := None, None;
        return;
      }
      sess := Some(env.session);
      if !env.tensorFound {
        sess, softmaxTensor := None, None;
        return;
      }
      softmaxTensor := Some(Tensor(ResultTensorName));
    }

    /**
     * `predict`: refuse when not loaded (whatever the model would say); else
     * run the model, rank its scores with `argsort()[-5:][::-1]` and build the
     * result. `order` is the order numpy's argsort returned for the scores.
     */
    method Predict(imageData: Bytes, run: Bytes -> Result<seq<real>, string>, order: seq<nat>)
      returns (r: Result<Prediction, PredictError>)
      requires run(imageData).Ok? ==> IsArgsort(run(imageData).value, order)
      ensures r == Err(NotLoaded) <==> !IsLoaded()
      ensures IsLoaded() && run(imageData).Err? ==> r == Err(PredictionFailed(run(imageData).error))
      ensures IsLoaded() && run(imageData).Ok? ==>
                var scores, top := run(imageData).value, TopK(order, TopCount);
                && IsTopK(scores, TopCount, top)
                && (r.Ok? <==> |scores| > 0 && forall j :: 0 <= j < |top| ==> top[j] < |labelLines|)
                && (r.Err? ==> r.error == PredictionFailed(IndexErrorText))
                && (r.Ok? ==> ReportsRanking(r.value, labelLines, scores, top) && RanksBestFirst(r.value, scores))
    {
      if !IsLoaded() {
        return Err(NotLoaded);
      }
      match run(imageData)
      case Err(detail) =>
        r := Err(PredictionFailed(detail));
      case Ok(scores) =>
        var top := TopK(order, TopCount);
        TopKSelects(scores, order, TopCount);
        r := BuildPrediction(labelLines, scores, top);
        if r.Ok? {
          RankingConfidences(labelLines, scores, TopCount, top, r.value);
        }
    }
  }

  /** A failed load leaves the engine unloaded, so every prediction is refused before the model runs. */
  method FailedLoadRefusesPrediction(env: LoadEnv, imageData: Bytes, run: Bytes -> Result<seq<real>, string>)
    returns (r: Result<Prediction, PredictError>)
    requires !LoadSucceeds(env)
    ensures r == Err(NotLoaded)
  {
    var engine := new Engine(env);
    var scores := run(imageData);
    var order := if scores.Ok? then Argsort(scores.value) else [];
    r := engine.Predict(imageData, run, order);
  }
}
