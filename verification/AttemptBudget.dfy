/**
 * One pass through the application interceptor: the network guard claims a one-use budget for every
 * request that reaches the gateway, the authenticator may mint one more, and the HTTP client around them
 * retries connections, follows redirects and repeats requests as it likes.
 */
module AttemptBudget {
  import opened Prelude
  import Text

  // ---------- The one-use budget ----------

  class Budget {
    var claimed: bool

    constructor ()
      ensures !claimed
    {
      claimed := false;
    }

    /** compareAndSet(false, true). */
    method Claim() returns (ok: bool)
      modifies this
      ensures claimed && ok == !old(claimed)
    {
      ok := !claimed;
      claimed := true;
    }
  }

  /** Throws unless the request carries a budget nobody has claimed; a later claim of it always throws. */
  method ClaimNetworkAttempt(budget: Budget?) returns (ok: bool)
    modifies if budget == null then {} else {budget}
    ensures ok <==> budget != null && !old(budget.claimed)
    ensures budget != null ==> budget.claimed
  {
    if budget == null {
      return false;
    }
    ok := budget.Claim();
  }

  // ---------- Responses ----------

  datatype ErrorCode =
    | DpopNonceRequired | SessionExpired | SessionRevoked | RefreshTokenReused
    | InstallationRevoked | InstallationFamilyRevoked
    | ComponentRevoked | ComponentKeyInvalid | ComponentKeyReplaced | OtherCode

  /** The fields of a problem document that are compared; `canonical` covers its type and documentation URLs. */
  datatype Problem = Problem(
    status: int,
    code: Option<ErrorCode>,
    requestId: Option<string>,
    titled: bool,
    detailed: bool,
    retryable: Option<bool>,
    canonical: bool
  )

  datatype Response = Response(
    status: int,
    problemJson: bool,
    requestId: Option<string>,
    problem: Option<Problem>,
    nonce: Option<string>,
    oneShotBody: bool,
    prior: Option<Response>
  )

  function PriorCount(r: Response): nat
    decreases r
  {
    if r.prior.None? then 0 else 1 + PriorCount(r.prior.value)
  }

  method ResponseCount(response: Response) returns (count: nat)
    ensures count == 1 + PriorCount(response)
  {
    count := 1;
    var previous := response.prior;
    while previous.Some?
      invariant count + (if previous.Some? then 1 + PriorCount(previous.value) else 0) == 1 + PriorCount(response)
      decreases previous
    {
      count := count + 1;
      previous := previous.value.prior;
    }
  }

  predicate AuthenticatorCode(c: ErrorCode) {
    c.DpopNonceRequired? || c.SessionExpired? || c.SessionRevoked? || c.RefreshTokenReused?
  }

  predicate ComponentTerminal(c: ErrorCode) {
    c.ComponentRevoked? || c.ComponentKeyInvalid? || c.ComponentKeyReplaced?
  }

  predicate RootTerminal(c: ErrorCode) {
    c.InstallationRevoked? || c.InstallationFamilyRevoked?
  }

  function CanonicalRetryability(c: ErrorCode): bool {
    c.DpopNonceRequired? || c.SessionExpired?
  }

  predicate ValidNonce(n: string) {
    16 <= |n| <= 512 && forall i :: 0 <= i < |n| ==> !Text.IsControl(n[i])
  }

  predicate IsAlphanumeric(c: char) {
    'a' <= c <= 'z' || 'A' <= c <= 'Z' || '0' <= c <= '9'
  }

  predicate ValidRequestId(id: string) {
    && 8 <= |id| <= 128 && IsAlphanumeric(id[0])
    && forall i :: 0 <= i < |id| ==> IsAlphanumeric(id[i]) || id[i] in {'.', '_', ':', '-'}
  }

  /** The problem code of a response, if every cross-check between header and document holds. */
  function ProblemCode(r: Response): Option<ErrorCode> {
    if (r.status != 401 && r.status != 403) || !r.problemJson then None
    else if r.requestId.None? || !ValidRequestId(r.requestId.value) || r.problem.None? then None
    else
      var p := r.problem.value;
      if p.status != r.status || p.requestId != r.requestId || p.code.None? || !p.titled || !p.detailed
         || p.retryable.None? || !p.canonical then None
      else
        var c := p.code.value;
        if r.status == 401 then
          if (AuthenticatorCode(c) && p.retryable.value == CanonicalRetryability(c))
             || (ComponentTerminal(c) && !p.retryable.value) then Some(c) else None
        else if (RootTerminal(c) || ComponentTerminal(c)) && !p.retryable.value then Some(c)
        else None
  }

  datatype Decision = Nothing | WithNonce(nonce: string) | Refresh | Clear

  /** A first, replayable response whose document names the problem and passes every cross-check. */
  predicate Reports(r: Response, code: ErrorCode, retryable: bool) {
    && r.prior.None? && !r.oneShotBody && r.status == 401 && r.problemJson
    && r.requestId.Some? && ValidRequestId(r.requestId.value)
    && r.problem.Some? && r.problem.value.requestId == r.requestId && r.problem.value.status == 401
    && r.problem.value.titled && r.problem.value.detailed && r.problem.value.canonical
    && r.problem.value.retryable == Some(retryable) && r.problem.value.code == Some(code)
  }

  /** A validated nonce problem with a usable nonce, or a validated expiry. */
  predicate Renewable(r: Response) {
    || Reports(r, SessionExpired, true)
    || (Reports(r, DpopNonceRequired, true) && r.nonce.Some? && ValidNonce(r.nonce.value))
  }

  /** A validated end of the session. */
  predicate EndsSession(r: Response) {
    Reports(r, SessionRevoked, false) || Reports(r, RefreshTokenReused, false)
  }

  function Decide(r: Response): Decision {
    if r.prior.Some? || r.oneShotBody || ProblemCode(r).None? then Nothing
    else
      match ProblemCode(r).value
      case DpopNonceRequired =>
        if r.nonce.Some? && ValidNonce(r.nonce.value) then WithNonce(r.nonce.value) else Nothing
      case SessionExpired => Refresh
      case SessionRevoked => Clear
      case RefreshTokenReused => Clear
      case _ => Nothing
  }

  /** The authenticator renews on exactly the renewable responses. */
  lemma RenewsExactlyValidated(r: Response)
    ensures Renewable(r) <==> Decide(r).WithNonce? || Decide(r).Refresh?
    ensures EndsSession(r) <==> Decide(r).Clear?
  {
  }

  /** Renews with the announced nonce or after a refresh, clears an ended session, and ignores all else. */
  method AuthenticationDecision(response: Response) returns (d: Decision)
    ensures Renewable(response) <==> d.WithNonce? || d.Refresh?
    ensures d.WithNonce? ==> Reports(response, DpopNonceRequired, true) && response.nonce == Some(d.nonce)
    ensures d.Refresh? ==> Reports(response, SessionExpired, true)
    ensures EndsSession(response) <==> d.Clear?
    ensures d == Decide(response)
  {
    var count := ResponseCount(response);
    if count > 1 || response.oneShotBody {
      return Nothing;
    }
    var code := ProblemCode(response);
    if code == Some(DpopNonceRequired) {
      if response.nonce.None? || !ValidNonce(response.nonce.value) {
        return Nothing;
      }
      return WithNonce(response.nonce.value);
    }
    if code == Some(SessionExpired) {
      return Refresh;
    }
    if code == Some(SessionRevoked) || code == Some(RefreshTokenReused) {
      return Clear;
    }
    return Nothing;
  }

  // ---------- One pass ----------

  /** A request inside the client; budgets and proofs are numbered in order of creation. */
  datatype Request = Request(
    gateway: bool,
    allowed: bool,
    carriesCredentials: bool,
    budget: Option<nat>,
    nonce: Option<string>
  )

  /** What reached the gateway: a proof of its own, under a budget and for the reason it was minted. */
  datatype Dispatch = Dispatch(proof: nat, budget: nat, nonce: Option<string>)

  datatype Pass = Pass(
    current: Request,
    minted: seq<Option<Response>>,
    claimed: set<nat>,
    proofs: nat,
    followUps: nat,
    sent: seq<Dispatch>,
    elsewhere: seq<Request>,
    reply: Option<Response>
  )

  /**
   * `minted` records for each budget the response that led to it, the interceptor's first; `elsewhere` lists
   * what went to other origins.
   */
  function Begin(allowed: bool): Pass {
    Pass(Request(true, allowed, true, Some(0), None), [None], {}, 1, 0, [], [], None)
  }

  /** What the HTTP client and its environment do next. */
  datatype Event =
    /** A network attempt for the current request; authorizing may fail, and there may be no response. */
    | Attempt(authorizes: bool, reply: Option<Response>)
    /** Any follow-up the client makes itself, a redirect or a repetition: it can only carry known budgets. */
    | FollowUp(request: Request)
    /** The authenticator is asked about the last response. */
    | Authenticate(authorizes: bool)

  /** The network guard: nothing reaches the gateway without claiming the request's budget. */
  function Guard(p: Pass, authorizes: bool, reply: Option<Response>): Pass {
    var r := p.current;
    if !r.gateway then
      if r.carriesCredentials then p.(reply := None) else p.(elsewhere := p.elsewhere + [r], reply := reply)
    else if !r.allowed || r.budget.None? || r.budget.value in p.claimed then p.(reply := None)
    else
      var claimed := p.(claimed := p.claimed + {r.budget.value}, reply := None);
      if !authorizes then claimed
      else claimed.(proofs := p.proofs + 1, sent := p.sent + [Dispatch(p.proofs, r.budget.value, r.nonce)], reply := reply)
  }

  /** The authenticator: at most one fresh request, for the first response of a pass. */
  function Renew(p: Pass, authorizes: bool): Pass
    requires p.reply.Some?
  {
    var d := Decide(p.reply.value);
    if !p.current.gateway || !authorizes || !(d.WithNonce? || d.Refresh?) then p.(reply := None)
    else
      Pass(Request(true, p.current.allowed, true, Some(|p.minted|), if d.WithNonce? then Some(d.nonce) else None),
           p.minted + [p.reply], p.claimed, p.proofs + 1, p.followUps + 1, p.sent, p.elsewhere, None)
  }

  /** The nonce that goes with a budget: the one that a nonce problem announced. */
  function NonceOf(origin: Option<Response>): Option<string> {
    if origin.Some? && Reports(origin.value, DpopNonceRequired, true) then origin.value.nonce else None
  }

  /** The budget of a request and the nonce that was minted with it travel together. */
  predicate Tagged(p: Pass, r: Request) {
    r.budget.Some? ==> r.budget.value < |p.minted| && r.nonce == NonceOf(p.minted[r.budget.value])
  }

  predicate Possible(p: Pass, e: Event) {
    match e
    case Attempt(_, reply) => reply.Some? ==> PriorCount(reply.value) == p.followUps
    case FollowUp(request) => p.reply.Some? && Tagged(p, request)
    case Authenticate(_) => p.reply.Some?
  }

  function Next(p: Pass, e: Event): Pass
    requires Possible(p, e)
  {
    match e
    case Attempt(authorizes, reply) => Guard(p, authorizes, reply)
    case FollowUp(request) => p.(current := request, followUps := p.followUps + 1, reply := None)
    case Authenticate(authorizes) => Renew(p, authorizes)
  }

  predicate Run(ps: seq<Pass>, es: seq<Event>, allowed: bool) {
    && |ps| == |es| + 1 && ps[0] == Begin(allowed)
    && forall i :: 0 <= i < |es| ==> Possible(ps[i], es[i]) && ps[i + 1] == Next(ps[i], es[i])
  }

  /** Budgets are minted at most twice, the second time for a validated first response. */
  predicate MintedOk(p: Pass) {
    && 1 <= |p.minted| <= 2 && p.minted[0].None?
    && (|p.minted| == 2 ==> p.followUps > 0 && p.minted[1].Some? && Renewable(p.minted[1].value))
    && (p.reply.Some? ==> PriorCount(p.reply.value) == p.followUps)
    && Tagged(p, p.current) && p.proofs == |p.minted| + |p.sent|
  }

  /**
   * Each dispatch spent a budget of its own and carries a proof of its own; the interceptor's budget comes
   * first, and nothing follows up before it was spent.
   */
  predicate SentOk(p: Pass) {
    && (p.reply.Some? || p.followUps > 0 ==> p.sent != [])
    && (p.sent != [] ==> p.sent[0].budget == 0)
    && (p.followUps == 0 ==> p.current.gateway && p.current.budget == Some(0) && |p.minted| == 1)
    && (forall i :: 0 <= i < |p.sent| ==>
          && p.sent[i].budget in p.claimed && p.sent[i].budget < |p.minted| && p.sent[i].proof < p.proofs
          && p.sent[i].nonce == NonceOf(p.minted[p.sent[i].budget]))
    && (forall i :: 0 <= i < |p.elsewhere| ==> !p.elsewhere[i].gateway && !p.elsewhere[i].carriesCredentials)
    && (forall i, j :: 0 <= i < j < |p.sent| ==>
          p.sent[i].budget != p.sent[j].budget && p.sent[i].proof < p.sent[j].proof)
  }

  lemma MintedNext(p: Pass, e: Event)
    requires MintedOk(p) && Possible(p, e)
    ensures MintedOk(Next(p, e))
  {
    if e.Authenticate? {
      RenewsExactlyValidated(p.reply.value);
    }
  }

  lemma SentNext(p: Pass, e: Event)
    requires SentOk(p) && MintedOk(p) && Possible(p, e)
    ensures SentOk(Next(p, e))
  {
    hide Decide;
  }

  lemma {:induction false} RunOk(ps: seq<Pass>, es: seq<Event>, allowed: bool, k: nat)
    requires Run(ps, es, allowed) && k < |ps|
    ensures MintedOk(ps[k]) && SentOk(ps[k])
  {
    if k > 0 {
      hide MintedOk, SentOk, Next;
      RunOk(ps, es, allowed, k - 1);
      MintedNext(ps[k - 1], es[k - 1]);
      SentNext(ps[k - 1], es[k - 1]);
    }
  }

  /**
   * Under any sequence of connection retries, redirects, repetitions and 401 follow-ups, at most two
   * requests of a pass reach the gateway. A second one spends the budget that the authenticator minted
   * for a validated nonce or expiry problem, and carries a proof of its own with the announced nonce, if any.
   * Nothing that carries credentials goes to another origin.
   */
  lemma AtMostTwoRequests(ps: seq<Pass>, es: seq<Event>, allowed: bool, k: nat)
    requires Run(ps, es, allowed) && k < |ps|
    ensures |ps[k].sent| <= 2
    ensures |ps[k].sent| == 2 ==>
      && ps[k].sent[0].budget == 0 && ps[k].sent[1].budget == 1 && ps[k].sent[0].proof < ps[k].sent[1].proof
      && |ps[k].minted| == 2 && ps[k].minted[1].Some? && Renewable(ps[k].minted[1].value)
      && (var problem := ps[k].minted[1].value;
          ps[k].sent[1].nonce == if Reports(problem, SessionExpired, true) then None else problem.nonce)
    ensures ps[k].sent != [] ==> ps[k].sent[0].nonce.None?
    ensures ps[k].proofs == |ps[k].minted| + |ps[k].sent|
    ensures forall i :: 0 <= i < |ps[k].elsewhere| ==> !ps[k].elsewhere[i].carriesCredentials
  {
    RunOk(ps, es, allowed, k);
    var p := ps[k];
    ThirdBudget(p);
    if |p.sent| == 2 {
      assert p.sent[0].budget != p.sent[1].budget;
    }
  }

  /** The bound is met: every such problem does lead to a second request when nothing fails. */
  lemma SecondRequest(r: Response) returns (ps: seq<Pass>, es: seq<Event>)
    requires Renewable(r)
    ensures Run(ps, es, true) && |ps[|ps| - 1].sent| == 2 && ps[|ps| - 1].minted == [None, Some(r)]
  {
    RenewsExactlyValidated(r);
    es := [Attempt(true, Some(r)), Authenticate(true), Attempt(true, None)];
    var first := Next(Begin(true), es[0]);
    var second := Next(first, es[1]);
    ps := [Begin(true), first, second, Next(second, es[2])];
  }

  /** Two budgets do not pay for three requests. */
  lemma ThirdBudget(p: Pass)
    requires SentOk(p) && |p.minted| <= 2
    ensures |p.sent| <= 2
  {
    if |p.sent| > 2 {
      Different(p, 0, 1);
      Different(p, 0, 2);
      Different(p, 1, 2);
    }
  }

  lemma Different(p: Pass, i: nat, j: nat)
    requires SentOk(p)
    ensures i < j < |p.sent| ==> p.sent[i].budget != p.sent[j].budget && p.sent[j].budget < |p.minted|
  {
  }
}
