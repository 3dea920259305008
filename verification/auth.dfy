/** The bearer-token gate of auth/insecure.go: a request passes when the
    token in its X-Authorization header is in the token store. */
module Auth {
  import opened Http
  import opened GoStrings

  /** What the middleware does with a request: reject it with a status and
      a JSON message, or hand it to the next handler. */
  datatype Decision = Reject(status: int, message: string) | Next

  const BearerPrefix: string := "Bearer "

  /** The token of a header: the header with its first "Bearer " removed,
      wherever that occurs. */
  function TokenOf(header: string): string
  {
    ReplaceFirst(header, BearerPrefix, "")
  }

  /** InsecureAuthMiddleware on the value of the X-Authorization header. */
  function Authorize(header: string, store: set<string>): (d: Decision)
    ensures d.Next? <==> header != "" && TokenOf(header) in store
    ensures header == "" ==> d == Reject(StatusUnauthorized, "Authorization header missing")
    ensures header != "" && TokenOf(header) !in store ==> d == Reject(StatusUnauthorized, "Invalid authorization token")
  {
    if header == "" then Reject(StatusUnauthorized, "Authorization header missing")
    else if TokenOf(header) !in store then Reject(StatusUnauthorized, "Invalid authorization token")
    else Next
  }

  /** "Bearer " + t carries the token t, whatever t holds: the first
      occurrence of the prefix is the leading one. */
  lemma BearerHeaderToken(t: string)
    ensures TokenOf(BearerPrefix + t) == t
  {
    ReplaceFirstAt("", BearerPrefix, t);
    assert "" + BearerPrefix + t == BearerPrefix + t;
  }

  /** The prefix is removed where it first occurs, not only at the front:
      "x Bearer t" carries the token "x t". */
  lemma InnerBearerRemoved(a: string, b: string)
    requires forall i :: 0 <= i < |a| ==> !OccursAt(a + BearerPrefix + b, BearerPrefix, i)
    ensures TokenOf(a + BearerPrefix + b) == a + b
  {
    ReplaceFirstAt(a, BearerPrefix, b);
  }

  /** A header without the prefix is taken as the token itself. */
  lemma PlainHeaderToken(header: string)
    requires forall i :: 0 <= i ==> !OccursAt(header, BearerPrefix, i)
    ensures TokenOf(header) == header
  {
  }

  /** The package-level token store. */
  class TokenStore {
    var tokens: set<string>

    constructor ()
      ensures tokens == {}
    {
      tokens := {};
    }

    /** AddToken: the store only grows, adding a token twice is the same as
        adding it once, and the bearer header of the token is then accepted. */
    method AddToken(token: string)
      modifies this
      ensures tokens == old(tokens) + {token}
      ensures old(tokens) <= tokens
      ensures Authorize(BearerPrefix + token, tokens) == Next
    {
      tokens := tokens + {token};
      BearerHeaderToken(token);
    }
  }
}
