/**
  The configuration of the local Ollama provider: its defaults, the check
  and normalisation of the base URL, and the OpenAI-compatible endpoint
  derived from it.
 */
module Ollama {

  import opened Errors
  import opened Text

  const DefaultBaseUrl := "http://localhost:11434"

  const DefaultModel := "qwen2.5:7b"

  const InvalidBaseUrlMessage := "Ollama base URL must be an HTTP or HTTPS URL"

  predicate HasHttpScheme(v: string) {
    StartsWith(v, "http://") || StartsWith(v, "https://")
  }

  /** `_validate_base_url`: refuse anything without an HTTP(S) scheme,
      otherwise drop every trailing '/'. */
  function ValidateBaseUrl(v: string): (r: Result<string>)
    ensures r.Success? <==> HasHttpScheme(v)
    ensures r.Failure? ==> r.error == InvalidBaseUrl(InvalidBaseUrlMessage)
    ensures r.Success? ==> && |r.value| <= |v| && r.value == v[..|r.value|]
                           && (forall i :: |r.value| <= i < |v| ==> v[i] == '/')
                           && (r.value == [] || r.value[|r.value| - 1] != '/')
  {
    if !HasHttpScheme(v) then Failure(InvalidBaseUrl(InvalidBaseUrlMessage))
    else Success(RStripChar(v, '/'))
  }

  /** The validated configuration (the model name is not checked). */
  datatype OllamaConfig = OllamaConfig(baseUrl: string, model: string)

  function NewOllamaConfig(baseUrl: string, model: string): (r: Result<OllamaConfig>)
    ensures r.Success? <==> ValidateBaseUrl(baseUrl).Success?
    ensures r.Success? ==> r.value == OllamaConfig(ValidateBaseUrl(baseUrl).value, model)
    ensures r.Failure? ==> r.error == ValidateBaseUrl(baseUrl).error
  {
    match ValidateBaseUrl(baseUrl)
    case Failure(e) => Failure(e)
    case Success(url) => Success(OllamaConfig(url, model))
  }

  /** `openai_compatible_url`. */
  function OpenAICompatibleUrl(config: OllamaConfig): string {
    config.baseUrl + "/v1"
  }

  /** The endpoint is the base URL followed by "/v1", with exactly one '/'
      between them: the base URL never ends in '/'. */
  lemma EndpointShape(baseUrl: string, model: string)
    requires NewOllamaConfig(baseUrl, model).Success?
    ensures var c := NewOllamaConfig(baseUrl, model).value;
      var u := OpenAICompatibleUrl(c);
      && |u| == |c.baseUrl| + 3 && u[..|c.baseUrl|] == c.baseUrl && u[|c.baseUrl|..] == "/v1"
      && (c.baseUrl == [] || u[|c.baseUrl| - 1] != '/')
  {
    var c := NewOllamaConfig(baseUrl, model).value;
    var u := OpenAICompatibleUrl(c);
    assert u[..|c.baseUrl|] == c.baseUrl;
    assert u[|c.baseUrl|..] == "/v1";
  }

  /** Dropping trailing slashes a second time changes nothing. */
  lemma NormalizationIdempotent(v: string)
    ensures RStripChar(RStripChar(v, '/'), '/') == RStripChar(v, '/')
  {
    var r := RStripChar(v, '/');
    if r != [] {
      assert r[|r| - 1] != '/';
    }
  }

  /** Validating the validated URL again gives it back whenever the scheme
      survived the normalisation. */
  lemma RevalidationStable(v: string)
    requires ValidateBaseUrl(v).Success? && HasHttpScheme(ValidateBaseUrl(v).value)
    ensures ValidateBaseUrl(ValidateBaseUrl(v).value) == ValidateBaseUrl(v)
  {
    NormalizationIdempotent(v);
  }

  /** The scheme does not always survive: "http://" is accepted, and what is
      stored, "http:", is refused if validated again. */
  lemma BareSchemeLosesItsSlashes()
    ensures ValidateBaseUrl("http://") == Success("http:")
    ensures ValidateBaseUrl("http:").Failure?
  {
    assert StartsWith("http://", "http://");
    assert RStripChar("http:/", '/') == "http:" by {
      assert "http:/"[..5] == "http:";
    }
    assert RStripChar("http://", '/') == RStripChar("http:/", '/') by {
      assert "http://"[..6] == "http:/";
    }
  }

  /** The defaults validate unchanged and give the endpoint
      "http://localhost:11434/v1". */
  lemma DefaultsAreValid()
    ensures NewOllamaConfig(DefaultBaseUrl, DefaultModel) == Success(OllamaConfig("http://localhost:11434", "qwen2.5:7b"))
    ensures OpenAICompatibleUrl(NewOllamaConfig(DefaultBaseUrl, DefaultModel).value) == "http://localhost:11434/v1"
  {
    assert DefaultBaseUrl[..|"http://"|] == "http://";
    assert DefaultBaseUrl[|DefaultBaseUrl| - 1] != '/';
    assert RStripChar(DefaultBaseUrl, '/') == DefaultBaseUrl;
  }
}
