/** The parts of the browser a service reaches without going through the
    key-value store: the question bank's HTTP endpoint, HTML entity
    decoding (done through the DOM), Math.random, and the id and timestamp
    generators built from Date.now and Math.random. Each is an arbitrary
    but fixed function; a "tick" (the number of earlier requests) selects
    which fresh ids, timestamps and random numbers a request gets. */
module Platform {
  import opened Common
  import opened Types
  import opened OpenTdb

  datatype Env = Env(
    api: Request -> Reply,
    decode: string -> string,
    random: (nat, nat, nat) -> Unit,
    freshId: (nat, nat) -> string,
    clock: nat -> string)

  /** fetchOpenTDBQuestions(amount, categoryId, difficulty) issued at a tick:
      the reply to the request, validated and normalised; question k gets
      id freshId(tick, k + 1) and random numbers random(tick, k, _). */
  function Fetch(env: Env, req: Request, tick: nat): (r: Result<seq<Question>, FetchError>)
    ensures r.Success? <==> Usable(env.api(req))
    ensures r.Success? ==> |r.value| == |env.api(req).results.value|
  {
    FetchQuestions(env.api(req), env.decode, (k: nat) => env.freshId(tick, k + 1), (k: nat, n: nat) => env.random(tick, k, n))
  }
}
