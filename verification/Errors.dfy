/**
 Error values of the Slack client and the predicates that classify them. An error is a chain: each
 link may wrap the next, and `errors.As` walks the chain.
 */
module Errors {
  import opened Outcomes

  /** Which of the four transport error types a library error is, if any. */
  datatype NetKind = NotNetwork | NetError | OpError | DNSError | SyscallError

  /** An error made outside the provider: it may wrap another one, never one of the provider's. */
  datatype Foreign = Foreign(kind: NetKind, text: string, cause: Option<Foreign>)

  datatype Error =
    | SlackError(code: string, message: string)
    | RetriableError(inner: Error)
    | Wrapped(context: string, inner: Error)
    | Library(foreign: Foreign)
  {
    /** `IsRetriable` of a Slack error. */
    predicate IsRetriableCode()
      requires SlackError?
    {
      code in {"internal_error", "fatal_error", "request_timeout"}
    }
  }

  /** `errors.As` with a Slack error as target. */
  function AsSlackError(e: Error): (r: Option<Error>)
    ensures r.Some? ==> r.value.SlackError?
  {
    match e
    case SlackError(_, _) => Some(e)
    case RetriableError(inner) => AsSlackError(inner)
    case Wrapped(_, inner) => AsSlackError(inner)
    case Library(_) => None
  }

  /** `errors.As` with a Slack error as target, then a test of its code. */
  predicate HasCode(e: Error, code: string) {
    AsSlackError(e).Some? && AsSlackError(e).value.code == code
  }

  /** The test that the pin and bookmark controllers share. */
  predicate IsChannelUnavailable(e: Error) {
    HasCode(e, "channel_not_found") || HasCode(e, "is_archived")
  }

  /** `errors.As` with a RetriableError as target. */
  predicate AsRetriableError(e: Error) {
    match e
    case SlackError(_, _) => false
    case RetriableError(_) => true
    case Wrapped(_, inner) => AsRetriableError(inner)
    case Library(_) => false
  }

  predicate IsRetriableError(e: Error) {
    if AsRetriableError(e) then true
    else AsSlackError(e).Some? && AsSlackError(e).value.IsRetriableCode()
  }

  /** `errors.As` with one of the transport types as target. */
  predicate ForeignHasKind(f: Foreign, kind: NetKind) {
    f.kind == kind || (f.cause.Some? && ForeignHasKind(f.cause.value, kind))
  }

  predicate HasKind(e: Error, kind: NetKind) {
    match e
    case SlackError(_, _) => false
    case RetriableError(inner) => HasKind(inner, kind)
    case Wrapped(_, inner) => HasKind(inner, kind)
    case Library(f) => ForeignHasKind(f, kind)
  }

  predicate IsNetworkError(e: Error) {
    HasKind(e, NetError) || HasKind(e, OpError) || HasKind(e, DNSError) || HasKind(e, SyscallError)
  }

  /** The type assertion `err.(*SlackError)`: it looks at the outermost link only. */
  function AssertSlackError(e: Error): Option<Error> {
    if e.SlackError? then Some(e) else None
  }

  // ---------- What the predicates mean on a whole chain ----------

  /** The innermost link of the provider's part of the chain. */
  ghost function Root(e: Error): (r: Error)
    ensures r.SlackError? || r.Library?
  {
    match e
    case SlackError(_, _) => e
    case RetriableError(inner) => Root(inner)
    case Wrapped(_, inner) => Root(inner)
    case Library(_) => e
  }

  /** All links of a library error. */
  ghost function Links(f: Foreign): (r: seq<Foreign>) {
    [f] + if f.cause.None? then [] else Links(f.cause.value)
  }

  ghost predicate HasLinkOf(f: Foreign, kind: NetKind) {
    exists k :: 0 <= k < |Links(f)| && Links(f)[k].kind == kind
  }

  /** Some link of a library error is of one of the four transport types. */
  ghost predicate Networked(f: Foreign) {
    exists k :: 0 <= k < |Links(f)| && Links(f)[k].kind != NotNetwork
  }

  lemma {:induction false} SlackErrorIsTheRoot(e: Error)
    ensures AsSlackError(e) == if Root(e).SlackError? then Some(Root(e)) else None
  {
    match e
    case RetriableError(inner) => SlackErrorIsTheRoot(inner);
    case Wrapped(_, inner) => SlackErrorIsTheRoot(inner);
    case SlackError(_, _) =>
    case Library(_) =>
  }

  lemma {:induction false} ForeignKindIsALink(f: Foreign, kind: NetKind)
    ensures ForeignHasKind(f, kind) <==> HasLinkOf(f, kind)
    decreases f
  {
    var links := Links(f);
    assert links[0] == f;
    if f.cause.Some? {
      var rest := Links(f.cause.value);
      ForeignKindIsALink(f.cause.value, kind);
      assert links == [f] + rest;
      if ForeignHasKind(f.cause.value, kind) {
        var j :| 0 <= j < |rest| && rest[j].kind == kind;
        assert links[j + 1] == rest[j];
      } else {
        assert forall k :: 1 <= k < |links| ==> links[k] == rest[k - 1];
      }
    }
  }

  /** A chain is a network error exactly when some link below the provider's own is of one of the
      four transport types. */
  lemma {:induction false} NetworkErrorIsTheRoot(e: Error)
    ensures IsNetworkError(e) <==> Root(e).Library? && Networked(Root(e).foreign)
  {
    match e
    case SlackError(_, _) =>
    case RetriableError(inner) => NetworkErrorIsTheRoot(inner);
    case Wrapped(_, inner) => NetworkErrorIsTheRoot(inner);
    case Library(f) =>
      ForeignKindIsALink(f, NetError);
      ForeignKindIsALink(f, OpError);
      ForeignKindIsALink(f, DNSError);
      ForeignKindIsALink(f, SyscallError);
  }

  /** Any number of layers of context around an error. */
  function Under(contexts: seq<string>, e: Error): (r: Error) {
    if contexts == [] then e else Wrapped(contexts[0], Under(contexts[1..], e))
  }

  /** Every classification survives any number of layers of context. */
  lemma {:induction false} ContextChangesNothing(contexts: seq<string>, e: Error)
    ensures IsRetriableError(Under(contexts, e)) == IsRetriableError(e)
    ensures IsNetworkError(Under(contexts, e)) == IsNetworkError(e)
    ensures AsSlackError(Under(contexts, e)) == AsSlackError(e)
    decreases |contexts|
  {
    if contexts != [] {
      ContextChangesNothing(contexts[1..], e);
    }
  }

  /** The type assertion and `errors.As` agree on an error exactly when it is a bare Slack error or
      has none in its chain. */
  lemma AssertionAgreesIff(e: Error)
    ensures AssertSlackError(e) == AsSlackError(e) <==> e.SlackError? || Root(e).Library?
  {
    SlackErrorIsTheRoot(e);
  }
}
