/** The token service of src/net/auth.cpp. The random token itself is an input. */
module Tokens {
  import opened Common

  datatype TokenRecord = TokenRecord(user: string, expiresAt: Time)

  type State = map<string, TokenRecord>

  /** 300 seconds in milliseconds. */
  const TTL: Time := 300_000

  function Issue(s: State, user: string, token: string, now: Time): State {
    s[token := TokenRecord(user, now + TTL)]
  }

  /** The user of a token that is known and not yet expired; an expired one is forgotten. */
  function Validate(s: State, token: string, now: Time): (State, Option<string>) {
    if token !in s then (s, None)
    else if now >= s[token].expiresAt then (s - {token}, None)
    else (s, Some(s[token].user))
  }

  datatype Op = IssueOp(user: string, token: string, now: Time) | ValidateOp(token: string, now: Time)

  function Step(s: State, op: Op): State {
    match op
    case IssueOp(user, token, now) => Issue(s, user, token, now)
    case ValidateOp(token, now) => Validate(s, token, now).0
  }

  function Run(s: State, ops: seq<Op>): State
    decreases |ops|
  {
    if ops == [] then s else Run(Step(s, ops[0]), ops[1..])
  }

  function Clock(op: Op): Time {
    op.now
  }

  /** Once a token has been seen after its expiry, or was never issued, only issuing it again makes
      it valid; until then a token answers its user exactly while it is younger than its
      lifetime, whatever other tokens are issued, checked or expire in between. */
  lemma {:induction false} TokenLifetime(s: State, token: string, user: string, issued: Time, ops: seq<Op>, now: Time)
    requires token in s && s[token] == TokenRecord(user, issued + TTL)
    requires forall op :: op in ops ==> !(op.IssueOp? && op.token == token) && Clock(op) <= now
    ensures Validate(Run(s, ops), token, now).1 == if now < issued + TTL then Some(user) else None
    decreases |ops|
  {
    if ops != [] {
      assert ops[0] in ops;
      var next := Step(s, ops[0]);
      if token in next {
        TokenLifetime(next, token, user, issued, ops[1..], now);
      } else {
        ForgottenStays(next, token, ops[1..]);
      }
    }
  }

  lemma {:induction false} ForgottenStays(s: State, token: string, ops: seq<Op>)
    requires token !in s
    requires forall op :: op in ops ==> !(op.IssueOp? && op.token == token)
    ensures token !in Run(s, ops)
    decreases |ops|
  {
    if ops != [] {
      assert ops[0] in ops;
      ForgottenStays(Step(s, ops[0]), token, ops[1..]);
    }
  }

  /** An issued token answers its user for 300 seconds, and no longer, whatever else is issued or
      checked after it, unless it is issued again. */
  lemma IssuedTokenLasts(s: State, token: string, user: string, issued: Time, ops: seq<Op>, now: Time)
    requires forall op :: op in ops ==> !(op.IssueOp? && op.token == token) && op.now <= now
    ensures
      var answer := Validate(Run(Issue(s, user, token, issued), ops), token, now).1;
      && (answer == Some(user) <==> now - issued < 300_000)
      && (answer == None <==> now - issued >= 300_000)
  {
    TokenLifetime(Issue(s, user, token, issued), token, user, issued, ops, now);
  }

  /** A check forgets the token it is asked about if that has expired, and no other one. */
  lemma ChecksForgetExpired(s: State, token: string, now: Time)
    ensures
      var t := Validate(s, token, now).0;
      && (token in t <==> token in s && now < s[token].expiresAt)
      && (forall k :: k in t ==> k in s && t[k] == s[k])
      && (forall k :: k in s && k != token ==> k in t)
  {
  }

  class TokenService {
    var tokens: State

    constructor ()
      ensures tokens == map[]
    {
      tokens := map[];
    }

    method IssueToken(user: string, token: string, now: Time)
      modifies this
      ensures tokens == Issue(old(tokens), user, token, now)
    {
      tokens := tokens[token := TokenRecord(user, now + TTL)];
    }

    method ValidateToken(token: string, now: Time) returns (user: Option<string>)
      modifies this
      ensures (tokens, user) == Validate(old(tokens), token, now)
    {
      if token !in tokens {
        return None;
      }
      if now >= tokens[token].expiresAt {
        tokens := tokens - {token};
        return None;
      }
      return Some(tokens[token].user);
    }
  }
}
