/**
 * The service facade (`SentimentService`): input validation, the single
 * shared instance owning one model, initialisation, the translation of model
 * errors into `ServiceError`, and status reporting.
 */
module Service {
  import opened Wrappers
  import Strings
  import opened Classifier

  const MAX_TEXT_LENGTH: nat := 10000

  const TEXT_NONE := "Text cannot be None"
  const TEXT_EMPTY := "Text cannot be empty"
  const TEXT_TOO_LONG := "Text is too long (max 10000 characters)"
  const NOT_INITIALIZED := "Service not initialized. Please try again later."
  const ANALYSIS_FAILED := "Failed to analyze text. Please try again."

  datatype ServiceError = ServiceError(message: string)

  /** The dictionary `get_status` returns; `device` is None without a model. */
  datatype Status = Status(ready: bool, modelLoaded: bool, device: Option<string>)

  /** `_validate_input`: `None` is rejected, then the text is stripped, and the
      stripped text must be non-empty and at most 10000 characters long. A
      `ValueError` is modelled as a `Failure` carrying its message. */
  function ValidateInput(text: Option<string>): (r: Result<string, string>)
    ensures text == None ==> r == Failure(TEXT_NONE)
    ensures text.Some? && Strings.Strip(text.value) == "" ==> r == Failure(TEXT_EMPTY)
    ensures text.Some? && |Strings.Strip(text.value)| > MAX_TEXT_LENGTH ==> r == Failure(TEXT_TOO_LONG)
    ensures r.Success? <==> text.Some? && 1 <= |Strings.Strip(text.value)| <= MAX_TEXT_LENGTH
    ensures r.Success? ==> r.value == Strings.Strip(text.value)
  {
    if text == None then Failure(TEXT_NONE)
    else
      var t := Strings.Strip(text.value);
      if t == "" then Failure(TEXT_EMPTY)
      else if |t| > MAX_TEXT_LENGTH then Failure(TEXT_TOO_LONG)
      else Success(t)
  }

  /** Validating an accepted text accepts it again, unchanged. */
  lemma ValidateIdempotent(text: Option<string>)
    requires ValidateInput(text).Success?
    ensures ValidateInput(Some(ValidateInput(text).value)) == ValidateInput(text)
  {
    Strings.StripIdempotent(text.value);
  }

  /** A text that passed validation never trips the model's blank check. */
  lemma ValidatedIsNotBlank(text: Option<string>)
    requires ValidateInput(text).Success?
    ensures !IsBlank(ValidateInput(text).value)
  {
    Strings.StripIdempotent(text.value);
  }

  /** The `except` clauses of `analyze`: a missing model and a failed
      prediction get fixed messages that hide the underlying error, and a
      `ValueError` keeps its own message. */
  function Translate(e: PredictError): (r: ServiceError)
    ensures e.ModelNotLoadedError? ==> r.message == NOT_INITIALIZED
    ensures e.PredictionError? ==> r.message == ANALYSIS_FAILED
    ensures e.ValueError? ==> r.message == e.message
  {
    match e
    case ModelNotLoadedError(_) => ServiceError(NOT_INITIALIZED)
    case PredictionError(_) => ServiceError(ANALYSIS_FAILED)
    case ValueError(m) => ServiceError(m)
  }

  /** The detail of a prediction fault never reaches the service's caller. */
  lemma TranslateHidesDetail(d1: string, d2: string)
    ensures Translate(PredictionError(d1)) == Translate(PredictionError(d2))
  {
  }

  class SentimentService {
    var model: SentimentModel?

    /** A constructed service owns a valid model. */
    ghost predicate Valid()
      reads this, model
    {
      model != null && model.Valid()
    }

    /** `super().__new__(cls)`: the object before `__init__` runs; the class
        attribute `_model` is still `None`. */
    constructor ()
      ensures model == null
    {
      model := null;
    }

    /** `__init__`: creates the model with the configured defaults only when
        there is none yet, so running it again never replaces a model. */
    method Init(config: Config)
      requires model != null ==> model.Valid()
      modifies this
      ensures Valid()
      ensures old(model) != null ==> model == old(model)
      ensures old(model) == null ==> fresh(model) && !model.loaded
      ensures old(model) == null ==> model.modelPath == config.modelPath && model.device == config.device
    {
      if model == null {
        model := new SentimentModel(None, None, config);
      }
    }

    /** `initialize()`: delegates to the model's `load`, so on a loaded model
        it is a no-op, and a `ModelLoadError` reaches the caller. */
    method Initialize(fetchTokenizer: Result<Tokenizer, string>, fetchNetwork: Result<Network, string>,
                      placement: Option<string>)
      returns (r: Result<(), LoadError>)
      requires Valid()
      modifies model
      ensures Valid() && model == old(model)
      ensures old(model.loaded) ==> r.Success? && unchanged(model)
      ensures model.loaded == (old(model.loaded) || LoadFailure(fetchTokenizer, fetchNetwork, placement) == None)
      ensures r.Success? <==> model.loaded
      ensures !old(model.loaded) && r.Failure? ==>
                r.error == ModelLoadError(LOAD_FAILED + LoadFailure(fetchTokenizer, fetchNetwork, placement).value)
      ensures model.tokenizer ==
                if !old(model.loaded) && fetchTokenizer.Success? then Some(fetchTokenizer.value)
                else old(model.tokenizer)
      ensures model.network ==
                if !old(model.loaded) && fetchTokenizer.Success? && fetchNetwork.Success?
                then Some(fetchNetwork.value) else old(model.network)
    {
      r := model.Load(fetchTokenizer, fetchNetwork, placement);
    }

    /** `analyze(text)`: validation comes first, so an invalid text gets its
        validation message even while the model is unloaded; the model sees the
        stripped text; model errors are translated. */
    function Analyze(text: Option<string>): (r: Result<Prediction, ServiceError>)
      reads this, model
      requires Valid()
      ensures ValidateInput(text).Failure? ==> r == Failure(ServiceError(ValidateInput(text).error))
      ensures ValidateInput(text).Success? && !model.loaded ==> r == Failure(ServiceError(NOT_INITIALIZED))
      ensures ValidateInput(text).Success? ==>
                var p := model.Predict(Strings.Strip(text.value));
                r == if p.Success? then Success(p.value) else Failure(Translate(p.error))
      ensures r.Failure? && ValidateInput(text).Success? ==>
                r.error.message == NOT_INITIALIZED || r.error.message == ANALYSIS_FAILED
    {
      match ValidateInput(text)
      case Failure(m) => Failure(ServiceError(m))
      case Success(t) =>
        ValidatedIsNotBlank(text);
        match model.Predict(t)
        case Success(p) => Success(p)
        case Failure(e) => Failure(Translate(e))
    }

    /** `is_ready()`. */
    function IsReady(): (r: bool)
      reads this, model
      requires model != null ==> model.Valid()
      ensures r <==> model != null && model.loaded
    {
      model != null && model.IsLoaded()
    }

    /** `get_status()`: readiness is exactly the model's loaded state. */
    function GetStatus(): (r: Status)
      reads this, model
      requires model != null ==> model.Valid()
      ensures r.ready == r.modelLoaded
      ensures r.modelLoaded <==> model != null && model.loaded
      ensures r.device == if model != null then Some(model.device) else None
    {
      Status(IsReady(), if model != null then model.IsLoaded() else false,
             if model != null then Some(model.device) else None)
    }
  }

  /** The class attribute `_instance`: the one service every
      `SentimentService()` call returns. */
  class ServiceInstance {
    var instance: SentimentService?

    constructor ()
      ensures instance == null
    {
      instance := null;
    }

    /** `SentimentService()`: `__new__` creates the instance only the first
        time and `__init__` then fills in the model only if it is missing, so a
        later call returns the same service with the same model. */
    method Obtain(config: Config) returns (s: SentimentService)
      requires instance != null && instance.model != null ==> instance.model.Valid()
      modifies this, instance
      ensures instance == s && s.Valid()
      ensures old(instance) != null ==> s == old(instance)
      ensures old(instance) != null && old(instance.model) != null ==> s.model == old(instance.model)
      ensures old(instance) == null ==> fresh(s) && fresh(s.model) && !s.model.loaded
      ensures old(instance) == null ==> s.model.modelPath == config.modelPath && s.model.device == config.device
      ensures old(instance) != null && old(instance.model) == null ==>
                fresh(s.model) && !s.model.loaded &&
                s.model.modelPath == config.modelPath && s.model.device == config.device
    {
      if instance == null {
        instance := new SentimentService();
      }
      s := instance;
      s.Init(config);
    }
  }
}
