/** The values the worker exchanges with the browser and the network, and
    the constants baked into the worker script. */
module Http {

  datatype Option<T> = None | Some(value: T)

  /** A request URL; the Cache Storage API files a GET request under it. */
  type Url = string

  /** An intercepted request: its method (`verb`), its URL, and the pathname component
      of that URL (which `new URL(request.url).pathname` would give). */
  datatype Request = Request(verb: string, url: Url, pathname: string)

  /** A captured HTTP response. */
  datatype Response = Response(status: int, body: string)

  /** `response.ok`: the status lies in 200..299. */
  predicate IsOk(r: Response)
  {
    200 <= r.status <= 299
  }

  /** What the network collaborator gives a `fetch`: a response (of any
      status), or a rejection because nothing came back. */
  datatype NetResult = Received(response: Response) | TransportError

  /** The network, as an oracle: what a GET for each URL yields. Every call
      the worker makes to the network is a GET. */
  type Network = Url -> NetResult

  /** The response the worker synthesises when it has nothing to serve. */
  const Offline := Response(503, "Offline")

  const Get := "GET"

  /** The two cache names the current deployment recognises. */
  const CacheVersion := "littlesteps-v1"
  const AssetsCache := "littlesteps-assets-v1"

  /** A pathname holding this is an API call, served network-first. */
  const ApiSegment := "/api/"

  /** A cached URL holding this is a pending progress update. */
  const ProgressSegment := "/api/progress"

  /** The tag of the background-sync job. */
  const SyncTag := "sync-progress"
}
