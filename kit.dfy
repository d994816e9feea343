/** The transport-agnostic endpoint kit: middleware composition
    (pkg/kit/endpoint.go) and the request-scoped values kept in a context
    (pkg/kit/context.go). An endpoint is any value of a type `E`; a middleware
    is a total function from endpoints to endpoints. */
module Kit {

  type Middleware<!E> = E -> E

  /** The backward loop of Chain: `others` is applied from its last element
      to its first, each wrapping what the previous step produced. */
  function WrapFromLast<E>(others: seq<Middleware<E>>, next: E): E
    decreases |others|
  {
    if |others| == 0 then next
    else WrapFromLast(others[..|others| - 1], others[|others| - 1](next))
  }

  /** The nesting Chain documents: others[0](others[1](...(e))). */
  function Nest<E>(others: seq<Middleware<E>>, e: E): E
    decreases |others|
  {
    if |others| == 0 then e else others[0](Nest(others[1..], e))
  }

  /** Chain: composes the middlewares so that the first one is outermost. */
  function Chain<E>(outer: Middleware<E>, others: seq<Middleware<E>>): Middleware<E> {
    (next: E) => outer(WrapFromLast(others, next))
  }

  lemma {:induction false} WrapFromLastIsNest<E>(others: seq<Middleware<E>>, e: E)
    ensures WrapFromLast(others, e) == Nest(others, e)
    decreases |others|
  {
    if |others| > 0 {
      var last := |others| - 1;
      var pre := others[..last];
      WrapFromLastIsNest(pre, others[last](e));
      NestSnoc(pre, others[last], e);
      assert pre + [others[last]] == others;
    }
  }

  /** Nesting under one more innermost middleware. */
  lemma {:induction false} NestSnoc<E>(others: seq<Middleware<E>>, m: Middleware<E>, e: E)
    ensures Nest(others + [m], e) == Nest(others, m(e))
    decreases |others|
  {
    if |others| == 0 {
      assert [m][1..] == [];
    } else {
      assert (others + [m])[1..] == others[1..] + [m];
      NestSnoc(others[1..], m, e);
    }
  }

  /** Chain(outer, others...)(e) == outer(others[0](others[1](...(e)))). */
  lemma ChainNests<E>(outer: Middleware<E>, others: seq<Middleware<E>>, e: E)
    ensures Chain(outer, others)(e) == outer(Nest(others, e))
  {
    WrapFromLastIsNest(others, e);
  }

  /** Chain(a)(e) == a(e). */
  lemma ChainAlone<E>(a: Middleware<E>, e: E)
    ensures Chain(a, [])(e) == a(e)
  {
    ChainNests(a, [], e);
  }

  /** Chain(a, b, c)(e) == a(b(c(e))). */
  lemma ChainOfThree<E>(a: Middleware<E>, b: Middleware<E>, c: Middleware<E>, e: E)
    ensures Chain(a, [b, c])(e) == a(b(c(e)))
  {
    ChainNests(a, [b, c], e);
    assert [b, c][1..] == [c];
    assert [c][1..] == [];
    assert Nest([c], e) == c(e);
    assert Nest([b, c], e) == b(c(e));
  }

  /** Chaining splits: the later middlewares wrap the endpoint before the
      earlier ones do. */
  lemma {:induction false} NestAppend<E>(xs: seq<Middleware<E>>, ys: seq<Middleware<E>>, e: E)
    ensures Nest(xs + ys, e) == Nest(xs, Nest(ys, e))
    decreases |xs|
  {
    if |xs| == 0 {
      assert xs + ys == ys;
    } else {
      assert (xs + ys)[1..] == xs[1..] + ys;
      NestAppend(xs[1..], ys, e);
    }
  }

  // ---- context values ----

  /** The request-scoped values under kit's own keys. Values stored under
      other packages' keys are not part of this model. */
  type Context = map<string, string>

  const UserIdKey: string := "kit_user_id"
  const HandleKey: string := "kit_handle"
  const TransportKey: string := "kit_transport"
  const RequestIdKey: string := "kit_request_id"
  const TraceIdKey: string := "kit_trace_id"

  /** The value under a key, "" when unset. */
  function Value(ctx: Context, key: string): string {
    if key in ctx then ctx[key] else ""
  }

  function GetUserId(ctx: Context): string { Value(ctx, UserIdKey) }
  function GetHandle(ctx: Context): string { Value(ctx, HandleKey) }
  function GetRequestId(ctx: Context): string { Value(ctx, RequestIdKey) }
  function GetTraceId(ctx: Context): string { Value(ctx, TraceIdKey) }

  /** GetTransport: the stored transport, even an empty one; "http" when none
      was stored. */
  function GetTransport(ctx: Context): (t: string)
    ensures TransportKey !in ctx ==> t == "http"
    ensures TransportKey in ctx ==> t == ctx[TransportKey]
  {
    if TransportKey in ctx then ctx[TransportKey] else "http"
  }

  /** Every getter of a fresh context gives its default. */
  lemma EmptyContextDefaults()
    ensures GetUserId(map[]) == "" && GetHandle(map[]) == "" && GetRequestId(map[]) == ""
    ensures GetTraceId(map[]) == "" && GetTransport(map[]) == "http"
  {
  }

  /** The four getters other than GetTransport, as one predicate: each agrees
      between the two contexts except possibly the one under `key`. */
  predicate OthersAgree(a: Context, b: Context, key: string) {
    (key != UserIdKey ==> GetUserId(a) == GetUserId(b)) &&
    (key != HandleKey ==> GetHandle(a) == GetHandle(b)) &&
    (key != TransportKey ==> GetTransport(a) == GetTransport(b)) &&
    (key != RequestIdKey ==> GetRequestId(a) == GetRequestId(b)) &&
    (key != TraceIdKey ==> GetTraceId(a) == GetTraceId(b))
  }

  function WithUserId(ctx: Context, id: string): (r: Context)
    ensures GetUserId(r) == id
    ensures OthersAgree(r, ctx, UserIdKey)
  {
    ctx[UserIdKey := id]
  }

  function WithHandle(ctx: Context, h: string): (r: Context)
    ensures GetHandle(r) == h
    ensures OthersAgree(r, ctx, HandleKey)
  {
    ctx[HandleKey := h]
  }

  function WithTransport(ctx: Context, t: string): (r: Context)
    ensures GetTransport(r) == t
    ensures OthersAgree(r, ctx, TransportKey)
  {
    ctx[TransportKey := t]
  }

  function WithRequestId(ctx: Context, id: string): (r: Context)
    ensures GetRequestId(r) == id
    ensures OthersAgree(r, ctx, RequestIdKey)
  {
    ctx[RequestIdKey := id]
  }

  function WithTraceId(ctx: Context, id: string): (r: Context)
    ensures GetTraceId(r) == id
    ensures OthersAgree(r, ctx, TraceIdKey)
  {
    ctx[TraceIdKey := id]
  }
}
