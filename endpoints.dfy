/** Endpoint selection: the `Url` record with its defaults, and the choice
    between the sandbox and the production gateway made on the merchant
    username. */
module Endpoints {

  const SandboxHost := "https://gateway.pmnts-sandbox.io/"
  const ProductionHost := "https://gateway.pmnts.io/"
  const FetchPath := "v1.0/purchases/"
  const VoidPath := "v1.0/purchases/void?id="

  /** The four base URLs the program knows. */
  datatype Url = Url(sandboxFetchUrl: string, productionFetchUrl: string,
                     sandboxVoidUrl: string, productionVoidUrl: string)
  {
    /** The base URL a purchase lookup is appended to. */
    function GetFetchUrl(merchantId: string): (r: string)
      ensures IsSandbox(merchantId) ==> r == sandboxFetchUrl
      ensures !IsSandbox(merchantId) ==> r == productionFetchUrl
    {
      match merchantId
      case "SC-scnet" => sandboxFetchUrl
      case "TEST" => sandboxFetchUrl
      case _ => productionFetchUrl
    }

    /** The base URL an internal transaction id is appended to. */
    function GetVoidUrl(merchantId: string): (r: string)
      ensures IsSandbox(merchantId) ==> r == sandboxVoidUrl
      ensures !IsSandbox(merchantId) ==> r == productionVoidUrl
    {
      match merchantId
      case "SC-scnet" => sandboxVoidUrl
      case "TEST" => sandboxVoidUrl
      case _ => productionVoidUrl
    }
  }

  /** `Url::default()`, which `Url::new()` returns: each base is a host
      followed by the lookup or the void path. */
  function DefaultUrl(): (u: Url)
    ensures u.sandboxFetchUrl == "https://gateway.pmnts-sandbox.io/v1.0/purchases/"
    ensures u.productionFetchUrl == "https://gateway.pmnts.io/v1.0/purchases/"
    ensures u.sandboxVoidUrl == "https://gateway.pmnts-sandbox.io/v1.0/purchases/void?id="
    ensures u.productionVoidUrl == "https://gateway.pmnts.io/v1.0/purchases/void?id="
  {
    Url(SandboxHost + FetchPath, ProductionHost + FetchPath, SandboxHost + VoidPath, ProductionHost + VoidPath)
  }

  /** The closed, case-sensitive set of merchant ids routed to the sandbox. */
  predicate IsSandbox(merchantId: string) {
    merchantId == "SC-scnet" || merchantId == "TEST"
  }

  /** No URL lies on both hosts: they part at the character after
      "https://gateway.pmnts". */
  lemma HostsExclusive(s: string)
    ensures SandboxHost <= s ==> s[21] == '-'
    ensures ProductionHost <= s ==> s[21] == '.'
  {
    assert SandboxHost[21] == '-' && ProductionHost[21] == '.';
  }

  /** `Url::new().get_fetch_url(merchant_id)`. */
  function FetchBase(merchantId: string): (r: string)
    ensures SandboxHost <= r <==> IsSandbox(merchantId)
    ensures ProductionHost <= r <==> !IsSandbox(merchantId)
    ensures r == (if IsSandbox(merchantId) then SandboxHost else ProductionHost) + FetchPath
  {
    HostsExclusive(DefaultUrl().GetFetchUrl(merchantId));
    DefaultUrl().GetFetchUrl(merchantId)
  }

  /** `Url::new().get_void_url(merchant_id)`. */
  function VoidBase(merchantId: string): (r: string)
    ensures SandboxHost <= r <==> IsSandbox(merchantId)
    ensures ProductionHost <= r <==> !IsSandbox(merchantId)
    ensures r == (if IsSandbox(merchantId) then SandboxHost else ProductionHost) + VoidPath
  {
    HostsExclusive(DefaultUrl().GetVoidUrl(merchantId));
    DefaultUrl().GetVoidUrl(merchantId)
  }

  /** The lookup URL of a purchase: the reference appended verbatim, with no
      escaping. */
  function FetchUrl(merchantId: string, reference: string): (r: string)
    ensures FetchBase(merchantId) <= r && r[|FetchBase(merchantId)|..] == reference
  {
    FetchBase(merchantId) + reference
  }

  /** The void URL of an internal transaction id, appended verbatim. */
  function VoidUrl(merchantId: string, id: string): (r: string)
    ensures VoidBase(merchantId) <= r && r[|VoidBase(merchantId)|..] == id
  {
    VoidBase(merchantId) + id
  }

  /** For one merchant the lookup URL determines the reference, and the void
      URL the id. */
  lemma UrlsDetermineArguments(merchantId: string, r1: string, r2: string)
    ensures FetchUrl(merchantId, r1) == FetchUrl(merchantId, r2) ==> r1 == r2
    ensures VoidUrl(merchantId, r1) == VoidUrl(merchantId, r2) ==> r1 == r2
  {
  }

  /** The match is exact: case variants and padded forms of the sandbox ids
      go to production. */
  lemma SandboxMatchIsExact()
    ensures !IsSandbox("test") && !IsSandbox("Test") && !IsSandbox("sc-scnet")
    ensures !IsSandbox("TEST ") && !IsSandbox(" TEST") && !IsSandbox("")
    ensures ProductionHost <= FetchBase("test") && ProductionHost <= VoidBase("test")
  {
  }
}
