/**
 * The one-shot command-line classifier: read the image named by the first
 * argument, load the labels and the graph, run the model once, and print
 * every class with its score, best first, one line per class.
 *
 * The file system is a pair of read functions (None: the file cannot be
 * opened), the graph import is a flag and `sess.run` a function parameter.
 */
module Classify {
  import opened Common
  import opened Labels
  import opened Ranking

  const LabelsPath: string := "logs/output_labels.txt"
  const GraphPath: string := "logs/output_graph.pb"

  /** One printed line, `<label> (score = <score>)`. */
  datatype ScoreLine = ScoreLine(name: string, score: real)

  /** How the script ends. */
  datatype Outcome =
    | MissingArgument                                  // `sys.argv[1]` raised IndexError
    | Unreadable(path: string)                         // a file could not be opened
    | GraphInvalid                                     // the graph did not parse, import or name `final_result:0`
    | ModelFault(detail: string)                       // `sess.run` raised
    | Printed(lines: seq<ScoreLine>, complete: bool)   // incomplete: IndexError at a class with no label

  /**
   * The `for node_id in top_k` loop: print the label and the score of each
   * ranked index in turn, stopping with an IndexError at the first index that
   * has no label (the lines printed before it stay printed).
   */
  method PrintRanking(labels: seq<string>, scores: seq<real>, top: seq<nat>)
    returns (lines: seq<ScoreLine>, complete: bool)
    requires InRange(|scores|, top)
    ensures complete <==> forall j :: 0 <= j < |top| ==> top[j] < |labels|
    ensures |lines| <= |top| && (complete ==> |lines| == |top|)
    ensures !complete ==> |lines| < |top| && top[|lines|] >= |labels|
    ensures forall j :: 0 <= j < |lines| ==> top[j] < |labels| && lines[j] == ScoreLine(labels[top[j]], scores[top[j]])
  {
    lines := [];
    var j := 0;
    while j < |top|
      invariant j <= |top| && |lines| == j
      invariant forall i :: 0 <= i < j ==> top[i] < |labels| && lines[i] == ScoreLine(labels[top[i]], scores[top[i]])
    {
      if top[j] >= |labels| {
        return lines, false;
      }
      lines := lines + [ScoreLine(labels[top[j]], scores[top[j]])];
      j := j + 1;
    }
    complete := true;
  }

  /**
   * `lines` is what the loop over `top` prints: one line per ranked index, in
   * ranking order, each pairing that index's label and score; all of them
   * exactly when every ranked index has a label, and otherwise those before
   * the first ranked index without one.
   */
  predicate PrintsInOrder(lines: seq<ScoreLine>, complete: bool, labels: seq<string>, scores: seq<real>, top: seq<nat>)
    requires InRange(|scores|, top)
  {
    && (complete <==> forall j :: 0 <= j < |top| ==> top[j] < |labels|)
    && |lines| <= |top| && (complete ==> |lines| == |top|)
    && (!complete ==> |lines| < |top| && top[|lines|] >= |labels|)
    && (forall j :: 0 <= j < |lines| ==> top[j] < |labels| && lines[j] == ScoreLine(labels[top[j]], scores[top[j]]))
  }

  /**
   * The script's report for `scores`: `top_k` (argsort reversed, over all the
   * classes) lists every class once, best first, and `lines` prints it in that
   * order.
   */
  predicate ReportsFullRanking(lines: seq<ScoreLine>, complete: bool, labels: seq<string>, scores: seq<real>, order: seq<nat>)
  {
    var top := TopK(order, |scores|);
    && IsIndexPermutation(|scores|, top)
    && NonIncreasing(scores, top)
    && PrintsInOrder(lines, complete, labels, scores, top)
  }

  /** Lines 30-34: rank every class with `argsort()[-n:][::-1]`, then print the ranking. */
  method RankAndPrint(labels: seq<string>, scores: seq<real>, order: seq<nat>)
    returns (lines: seq<ScoreLine>, complete: bool)
    requires IsArgsort(scores, order)
    ensures ReportsFullRanking(lines, complete, labels, scores, order)
  {
    var top := TopK(order, |scores|);
    FullRanking(scores, order);
    lines, complete := PrintRanking(labels, scores, top);
  }

  /** The scores the model gives the image named on the command line, when the script gets that far. */
  function ArgumentImageScores(argv: seq<string>, readBytes: string -> Option<Bytes>, run: Bytes -> Result<seq<real>, string>)
    : Option<seq<real>>
  {
    if |argv| < 2 || readBytes(argv[1]).None? then None
    else
      match run(readBytes(argv[1]).value)
      case Err(_) => None
      case Ok(scores) => Some(scores)
  }

  /** The image named on the command line and the labels file could both be read. */
  predicate FilesRead(argv: seq<string>, readBytes: string -> Option<Bytes>, readText: string -> Option<string>) {
    |argv| >= 2 && readBytes(argv[1]).Some? && readText(LabelsPath).Some?
  }

  /** Every file could be read and the graph imported: the script gets as far as `sess.run`. */
  predicate ModelRuns(argv: seq<string>, readBytes: string -> Option<Bytes>, readText: string -> Option<string>, graphImports: bool) {
    FilesRead(argv, readBytes, readText) && readBytes(GraphPath).Some? && graphImports
  }

  /**
   * The script. `filesOpened` lists the files it opened, in order. `order` is the
   * order numpy's argsort returned for the model's scores. It stops at the
   * first step that fails (the missing argument, each file in turn, the graph
   * import, the model), with that step's outcome and the files opened so far;
   * otherwise it prints the full ranking of the model's scores.
   */
  method RunScript(argv: seq<string>, readBytes: string -> Option<Bytes>, readText: string -> Option<string>,
               graphImports: bool, run: Bytes -> Result<seq<real>, string>, order: seq<nat>)
    returns (outcome: Outcome, filesOpened: seq<string>)
    requires ArgumentImageScores(argv, readBytes, run).Some? ==> IsArgsort(ArgumentImageScores(argv, readBytes, run).value, order)
    ensures |argv| < 2 <==> outcome == MissingArgument
    ensures |argv| < 2 ==> filesOpened == []
    ensures |argv| >= 2 && readBytes(argv[1]).None? ==>
              outcome == Unreadable(argv[1]) && filesOpened == [argv[1]]
    ensures |argv| >= 2 && readBytes(argv[1]).Some? && readText(LabelsPath).None? ==>
              outcome == Unreadable(LabelsPath) && filesOpened == [argv[1], LabelsPath]
    ensures FilesRead(argv, readBytes, readText) && readBytes(GraphPath).None? ==>
              outcome == Unreadable(GraphPath) && filesOpened == [argv[1], LabelsPath, GraphPath]
    ensures FilesRead(argv, readBytes, readText) && readBytes(GraphPath).Some? && !graphImports ==>
              outcome == GraphInvalid && filesOpened == [argv[1], LabelsPath, GraphPath]
    ensures ModelRuns(argv, readBytes, readText, graphImports) && run(readBytes(argv[1]).value).Err? ==>
              outcome == ModelFault(run(readBytes(argv[1]).value).error) && filesOpened == [argv[1], LabelsPath, GraphPath]
    ensures outcome.Printed? <==> ModelRuns(argv, readBytes, readText, graphImports) && run(readBytes(argv[1]).value).Ok?
    ensures outcome.Printed? ==> filesOpened == [argv[1], LabelsPath, GraphPath]
    ensures outcome.Printed? ==>
              && ArgumentImageScores(argv, readBytes, run).Some?
              && readText(LabelsPath).Some?
              && ReportsFullRanking(outcome.lines, outcome.complete, ParseLabels(readText(LabelsPath).value),
                                    ArgumentImageScores(argv, readBytes, run).value, order)
  {
    filesOpened := [];
    if |argv| < 2 {
      return MissingArgument, filesOpened;
    }
    var imagePath := argv[1];
    filesOpened := filesOpened + [imagePath];
    var image := readBytes(imagePath);
    if image.None? {
      return Unreadable(imagePath), filesOpened;
    }
    filesOpened := filesOpened + [LabelsPath];
    var labelsFile := readText(LabelsPath);
    if labelsFile.None? {
      return Unreadable(LabelsPath), filesOpened;
    }
    var labels := ParseLabels(labelsFile.value);
    filesOpened := filesOpened + [GraphPath];
    if readBytes(GraphPath).None? {
      return Unreadable(GraphPath), filesOpened;
    }
    if !graphImports {
      return GraphInvalid, filesOpened;
    }
    match run(image.value)
    case Err(detail) =>
      outcome := ModelFault(detail);
    case Ok(scores) =>
      var lines, complete := RankAndPrint(labels, scores, order);
      outcome := Printed(lines, complete);
  }
}
