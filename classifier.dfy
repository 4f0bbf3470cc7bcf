/**
 * The sentiment model's lifecycle and prediction contract
 * (`SentimentModel` with its error hierarchy).
 *
 * The tokenizer and the network are opaque capabilities obtained when the
 * model loads: the tokenizer turns text into token ids, the network turns
 * token ids into an `Inference` (the index torch's argmax picked and the
 * softmax scores of every class, already scaled to hundredths of a percent).
 * Either may fault; a fault carries the underlying error's text.
 */
module Classifier {
  import opened Wrappers
  import Strings

  /** `Config.MODEL_PATH` and `Config.DEVICE`, which the source reads from the
      environment when it starts. */
  datatype Config = Config(modelPath: string, device: string)

  /** What the network answers for one text. */
  datatype Inference = Inference(predictedClass: nat, scores: seq<int>)

  datatype Tokenizer = Tokenizer(encode: string -> Result<seq<int>, string>)

  datatype Network = Network(classify: seq<int> -> Result<Inference, string>)

  /** The dictionary `predict` returns: sentiment, confidence and the two
      per-class scores, all in hundredths of a percent. */
  datatype Prediction = Prediction(sentiment: string, confidence: int, negative: int, positive: int)

  /** The exceptions `predict` raises. */
  datatype PredictError =
    | ModelNotLoadedError(message: string)
    | ValueError(message: string)
    | PredictionError(message: string)

  /** The exception `load` raises. */
  datatype LoadError = ModelLoadError(message: string)

  const LABELS: map<nat, string> := map[0 := "Negative", 1 := "Positive"]

  const NOT_LOADED := "Model not loaded"
  const EMPTY_INPUT := "Input text cannot be empty"
  const PREDICTION_FAILED := "Prediction failed: "
  const LOAD_FAILED := "Failed to load model: "

  /** Placeholder detail for the `IndexError` torch raises when the scores
      have no entry for an index `predict` reads; torch's own wording differs,
      and the service hides it anyway. */
  const INDEX_OUT_OF_RANGE := "index out of range"

  /** `LABELS.get(c, "Unknown")`. */
  function Label(c: nat): (r: string)
    ensures c == 0 ==> r == "Negative"
    ensures c == 1 ==> r == "Positive"
    ensures c !in LABELS ==> r == "Unknown"
    ensures r == "Unknown" <==> c >= 2
  {
    if c in LABELS then LABELS[c] else "Unknown"
  }

  /** The result dictionary built from the network's answer. Reading the
      predicted class's score and the scores of classes 0 and 1 fails with an
      `IndexError`, re-raised as `PredictionError`, when an index is out of
      range. */
  function Interpret(inf: Inference): (r: Result<Prediction, PredictError>)
    ensures r.Success? <==> inf.predictedClass < |inf.scores| && 2 <= |inf.scores|
    ensures r.Success? ==>
      && r.value.sentiment == Label(inf.predictedClass)
      && r.value.confidence == inf.scores[inf.predictedClass]
      && r.value.negative == inf.scores[0]
      && r.value.positive == inf.scores[1]
    ensures r.Failure? ==> r.error == PredictionError(PREDICTION_FAILED + INDEX_OUT_OF_RANGE)
  {
    var c := inf.predictedClass;
    if c < |inf.scores| && 2 <= |inf.scores| then
      Success(Prediction(Label(c), inf.scores[c], inf.scores[0], inf.scores[1]))
    else
      Failure(PredictionError(PREDICTION_FAILED + INDEX_OUT_OF_RANGE))
  }

  /** `inf.predictedClass` holds a score no other class exceeds. */
  predicate IsArgmax(inf: Inference) {
    && inf.predictedClass < |inf.scores|
    && forall k :: 0 <= k < |inf.scores| ==> inf.scores[k] <= inf.scores[inf.predictedClass]
  }

  /** The confidence is the score of the class the sentiment names. */
  lemma ConfidenceIsScoreOfLabel(inf: Inference)
    requires Interpret(inf).Success?
    ensures Interpret(inf).value.sentiment == "Negative" ==>
              Interpret(inf).value.confidence == Interpret(inf).value.negative
    ensures Interpret(inf).value.sentiment == "Positive" ==>
              Interpret(inf).value.confidence == Interpret(inf).value.positive
  {
    var c := inf.predictedClass;
    if Label(c) == "Negative" {
      assert c == 0;
    } else if Label(c) == "Positive" {
      assert c == 1;
    }
  }

  /** For a two-class network whose index is the argmax, the confidence is the
      larger of the two scores and the sentiment is never "Unknown". */
  lemma ConfidenceIsMaxScore(inf: Inference)
    requires IsArgmax(inf) && |inf.scores| == 2
    ensures Interpret(inf).Success?
    ensures Interpret(inf).value.sentiment != "Unknown"
    ensures Interpret(inf).value.confidence >= Interpret(inf).value.negative
    ensures Interpret(inf).value.confidence >= Interpret(inf).value.positive
  {
    assert inf.scores[0] <= inf.scores[inf.predictedClass];
    assert inf.scores[1] <= inf.scores[inf.predictedClass];
  }

  /** The first reason a load attempt fails, in the order `load` performs its
      steps: fetch the tokenizer, fetch the weights, place them on the device
      and switch to evaluation mode. */
  function LoadFailure(tokenizer: Result<Tokenizer, string>, network: Result<Network, string>,
                       placement: Option<string>): (r: Option<string>)
    ensures r == None <==> tokenizer.Success? && network.Success? && placement == None
    ensures tokenizer.Failure? ==> r == Some(tokenizer.error)
    ensures tokenizer.Success? && network.Failure? ==> r == Some(network.error)
    ensures tokenizer.Success? && network.Success? ==> r == placement
  {
    if tokenizer.Failure? then Some(tokenizer.error)
    else if network.Failure? then Some(network.error)
    else placement
  }

  /** Python's `not text or not text.strip()`. */
  predicate IsBlank(text: string) {
    text == "" || Strings.Strip(text) == ""
  }

  lemma BlankIsAllSpace(text: string)
    ensures IsBlank(text) <==> Strings.AllSpace(text)
  {
  }

  class SentimentModel {
    const modelPath: string
    const device: string
    var tokenizer: Option<Tokenizer>
    var network: Option<Network>
    var loaded: bool

    /** Loaded means both artifacts have been obtained. */
    ghost predicate Valid()
      reads this
    {
      loaded ==> tokenizer.Some? && network.Some?
    }

    /** `SentimentModel(model_path, device)`: `model_path or Config.MODEL_PATH`
        (a path is never falsy) and `device or Config.DEVICE` (an empty device
        string falls back to the default). A new model is not loaded. */
    constructor (modelPath: Option<string>, device: Option<string>, config: Config)
      ensures Valid()
      ensures !loaded && tokenizer == None && network == None
      ensures this.modelPath == (if modelPath.Some? then modelPath.value else config.modelPath)
      ensures this.device == (if device.Some? && device.value != "" then device.value else config.device)
    {
      this.modelPath := if modelPath.Some? then modelPath.value else config.modelPath;
      this.device := if device.Some? && device.value != "" then device.value else config.device;
      tokenizer := None;
      network := None;
      loaded := false;
    }

    /** `is_loaded()`. */
    function IsLoaded(): (r: bool)
      reads this
      requires Valid()
      ensures r == loaded
      ensures r ==> tokenizer.Some? && network.Some?
    {
      loaded
    }

    /** `load()`: a no-op on a loaded model; otherwise each step's artifact is
        stored as it is obtained, and `loaded` becomes true only after all of
        them succeed. A failure raises `ModelLoadError` and leaves the model
        unloaded. */
    method Load(fetchTokenizer: Result<Tokenizer, string>, fetchNetwork: Result<Network, string>,
                placement: Option<string>)
      returns (r: Result<(), LoadError>)
      requires Valid()
      modifies this
      ensures Valid()
      ensures old(loaded) ==> r.Success? && loaded && unchanged(this)
      ensures !old(loaded) ==> (loaded <==> LoadFailure(fetchTokenizer, fetchNetwork, placement) == None)
      ensures r.Success? <==> loaded
      ensures !old(loaded) && r.Failure? ==>
                r.error == ModelLoadError(LOAD_FAILED + LoadFailure(fetchTokenizer, fetchNetwork, placement).value)
      ensures tokenizer == if !old(loaded) && fetchTokenizer.Success? then Some(fetchTokenizer.value) else old(tokenizer)
      ensures network == if !old(loaded) && fetchTokenizer.Success? && fetchNetwork.Success?
                         then Some(fetchNetwork.value) else old(network)
    {
      if loaded {
        return Success(());
      }
      if fetchTokenizer.Failure? {
        return Failure(ModelLoadError(LOAD_FAILED + fetchTokenizer.error));
      }
      tokenizer := Some(fetchTokenizer.value);
      if fetchNetwork.Failure? {
        return Failure(ModelLoadError(LOAD_FAILED + fetchNetwork.error));
      }
      network := Some(fetchNetwork.value);
      if placement.Some? {
        return Failure(ModelLoadError(LOAD_FAILED + placement.value));
      }
      loaded := true;
      r := Success(());
    }

    /** What the tokenizer and the network answer for `text`; a fault of
        either carries its error text. */
    function Infer(text: string): (r: Result<Inference, string>)
      reads this
      requires Valid() && loaded
    {
      match tokenizer.value.encode(text)
      case Failure(e) => Failure(e)
      case Success(ids) => network.value.classify(ids)
    }

    /** `predict(text)`: first the loaded check, then the blank check, then
        inference, whose every fault becomes `PredictionError`. The confidence
        is the score the network gave the predicted class. */
    function Predict(text: string): (r: Result<Prediction, PredictError>)
      reads this
      requires Valid()
      ensures !loaded ==> r == Failure(ModelNotLoadedError(NOT_LOADED))
      ensures loaded && IsBlank(text) ==> r == Failure(ValueError(EMPTY_INPUT))
      ensures r.Success? ==>
        && loaded && !IsBlank(text) && Infer(text).Success?
        && var inf := Infer(text).value;
           && inf.predictedClass < |inf.scores|
           && r.value.sentiment == Label(inf.predictedClass)
           && r.value.confidence == inf.scores[inf.predictedClass]
      ensures loaded && !IsBlank(text) ==> r.Success? || r.error.PredictionError?
      ensures loaded && !IsBlank(text) && Infer(text).Failure? ==>
                r == Failure(PredictionError(PREDICTION_FAILED + Infer(text).error))
      ensures loaded && !IsBlank(text) && Infer(text).Success? ==> r == Interpret(Infer(text).value)
    {
      if !loaded then Failure(ModelNotLoadedError(NOT_LOADED))
      else if IsBlank(text) then Failure(ValueError(EMPTY_INPUT))
      else match Infer(text)
        case Failure(e) => Failure(PredictionError(PREDICTION_FAILED + e))
        case Success(inf) => Interpret(inf)
    }
  }
}
