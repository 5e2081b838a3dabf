/**
 * `verifyToken` of middleware/authMiddleware.js: the request gate in front
 * of every user route.  It reads the `Authorization` header, takes the
 * second space-separated segment as the token, and either passes the
 * decoded claim on (`req.user = decoded; next()`) or answers 401.
 */
module AuthMiddleware {
  import opened Wrappers
  import opened Crypto
  import opened Http

  /** JavaScript's `s.split(sep)` for a one-character separator: never empty, empty segments kept. */
  function Split(s: string, sep: char): (parts: seq<string>)
    ensures |parts| >= 1
    ensures forall i :: 0 <= i < |parts| ==> sep !in parts[i]
  {
    if s == [] then [""]
    else
      var rest := Split(s[1..], sep);
      if s[0] == sep then [""] + rest else [[s[0]] + rest[0]] + rest[1..]
  }

  /** `parts.join(sep)`. */
  function Join(parts: seq<string>, sep: char): string
    requires |parts| >= 1
  {
    if |parts| == 1 then parts[0] else parts[0] + [sep] + Join(parts[1..], sep)
  }

  /** Splitting loses nothing: joining the segments back gives the header. */
  lemma {:induction false} JoinSplit(s: string, sep: char)
    ensures Join(Split(s, sep), sep) == s
  {
    if s != [] {
      var rest := Split(s[1..], sep);
      JoinSplit(s[1..], sep);
      if s[0] != sep {
        if |rest| == 1 {
          assert Split(s, sep) == [[s[0]] + rest[0]];
        } else {
          assert Split(s, sep)[1..] == rest[1..];
        }
      }
    }
  }

  /** A segment without the separator, followed by the separator, splits off as the first segment. */
  lemma {:induction false} SplitCons(a: string, x: string, sep: char)
    requires sep !in a
    ensures Split(a + [sep] + x, sep) == [a] + Split(x, sep)
  {
    if a != [] {
      assert (a + [sep] + x)[1..] == a[1..] + [sep] + x;
      SplitCons(a[1..], x, sep);
      assert [a[0]] + a[1..] == a;
    }
  }

  lemma {:induction false} SplitSingle(a: string, sep: char)
    requires sep !in a
    ensures Split(a, sep) == [a]
  {
    if a != [] {
      SplitSingle(a[1..], sep);
      assert [a[0]] + a[1..] == a;
    }
  }

  /** Segments free of the separator are recovered exactly by splitting what joining them gives. */
  lemma {:induction false} SplitJoin(parts: seq<string>, sep: char)
    requires |parts| >= 1
    requires forall i :: 0 <= i < |parts| ==> sep !in parts[i]
    ensures Split(Join(parts, sep), sep) == parts
  {
    if |parts| == 1 {
      SplitSingle(parts[0], sep);
    } else {
      SplitJoin(parts[1..], sep);
      SplitCons(parts[0], Join(parts[1..], sep), sep);
    }
  }

  /** `authHeader.split(' ')[1]`: `None` stands for `undefined` when the header holds no space. */
  function BearerSegment(header: string): Option<string>
  {
    var parts := Split(header, ' ');
    if |parts| >= 2 then Some(parts[1]) else None
  }

  /** What the gate decides: pass the claim to the route, or answer with a response. */
  datatype Gate = Next(user: Claim) | Reject(response: Response)

  const NoTokenProvided := Response(401, Message("Unauthorized: No token provided"))
  const TokenMissing := Response(401, Message("Unauthorized: Token missing"))
  const InvalidToken := Response(401, Message("Unauthorized: Invalid token"))

  /**
   * `verifyToken(req, res, next)`.  `authorization` is the header (`None`
   * when absent), `secret` is `process.env.JWT_SECRET` and `now` the clock
   * that `jwt.verify` checks the expiry against.
   */
  function VerifyToken(authorization: Option<string>, j: Signer, secret: Option<string>, now: nat): (g: Gate)
    ensures g.Reject? ==> g.response.status == 401
    ensures g == Reject(NoTokenProvided) <==> authorization.None? || authorization == Some("")
    ensures g == Reject(TokenMissing) <==>
      authorization.Some? && authorization.value != "" &&
      (BearerSegment(authorization.value).None? || BearerSegment(authorization.value) == Some(""))
    ensures g == Reject(InvalidToken) <==>
      authorization.Some? && BearerSegment(authorization.value).Some? && BearerSegment(authorization.value).value != "" &&
      j.verify(BearerSegment(authorization.value).value, secret, now).None?
    ensures g.Next? <==>
      authorization.Some? && BearerSegment(authorization.value).Some? && BearerSegment(authorization.value).value != "" &&
      j.verify(BearerSegment(authorization.value).value, secret, now).Some?
    ensures g.Next? ==> j.verify(BearerSegment(authorization.value).value, secret, now) == Some(g.user)
  {
    if authorization.None? || authorization.value == "" then Reject(NoTokenProvided)
    else
      var token := BearerSegment(authorization.value);
      if token.None? || token.value == "" then Reject(TokenMissing)
      else
        match j.verify(token.value, secret, now)
        case None => Reject(InvalidToken)
        case Some(decoded) => Next(decoded)
  }

  /** The token is whatever follows the first space, up to the next space or the end. */
  lemma BearerSegmentOf(scheme: string, token: string, rest: string)
    requires ' ' !in scheme && ' ' !in token
    requires rest == [] || rest[0] == ' '
    ensures BearerSegment(scheme + " " + token + rest) == Some(token)
  {
    assert scheme + " " + token + rest == scheme + [' '] + (token + rest);
    SplitCons(scheme, token + rest, ' ');
    if rest == [] {
      assert token + rest == token;
      SplitSingle(token, ' ');
    } else {
      assert token + rest == token + [' '] + rest[1..];
      SplitCons(token, rest[1..], ' ');
    }
  }

  /** The first segment is never looked at: "Bearer", "Basic" or anything else without a space. */
  lemma SchemeIgnored(scheme1: string, scheme2: string, rest: string, j: Signer, secret: Option<string>, now: nat)
    requires ' ' !in scheme1 && ' ' !in scheme2
    ensures VerifyToken(Some(scheme1 + " " + rest), j, secret, now) == VerifyToken(Some(scheme2 + " " + rest), j, secret, now)
  {
    SplitCons(scheme1, rest, ' ');
    SplitCons(scheme2, rest, ' ');
    assert scheme1 + " " + rest == scheme1 + [' '] + rest;
    assert scheme2 + " " + rest == scheme2 + [' '] + rest;
  }

  /** The position of the first space in a header that has one. */
  function FirstSpace(header: string): (i: nat)
    requires ' ' in header
    ensures i < |header| && header[i] == ' ' && ' ' !in header[..i]
  {
    if header[0] == ' ' then 0
    else
      var k := FirstSpace(header[1..]);
      assert header[..k + 1] == [header[0]] + header[1..][..k];
      k + 1
  }

  /**
   * A non-empty header is rejected as "Token missing" exactly when it has no
   * space, or its first space is followed by another space or ends it
   * ("Bearer", "Bearer ", "Bearer  x").
   */
  lemma TokenMissingExactly(header: string)
    ensures (BearerSegment(header).None? || BearerSegment(header) == Some(""))
        <==> (' ' !in header ||
              exists i :: 0 <= i < |header| && header[i] == ' ' && ' ' !in header[..i] &&
                          (i + 1 == |header| || header[i + 1] == ' '))
  {
    if ' ' in header {
      var first := FirstSpace(header);
      var rest := header[first + 1..];
      assert header == header[..first] + [' '] + rest;
      SplitCons(header[..first], rest, ' ');
      assert BearerSegment(header) == Some(Split(rest, ' ')[0]);
    } else {
      SplitSingle(header, ' ');
    }
  }

  /** An absent or empty header, and "Bearer", "Bearer " and "Bearer  x", never reach the verifier. */
  lemma RejectedBeforeVerifying(j: Signer, secret: Option<string>, now: nat)
    ensures VerifyToken(None, j, secret, now) == Reject(NoTokenProvided)
    ensures VerifyToken(Some(""), j, secret, now) == Reject(NoTokenProvided)
    ensures VerifyToken(Some("Bearer"), j, secret, now) == Reject(TokenMissing)
    ensures VerifyToken(Some("Bearer "), j, secret, now) == Reject(TokenMissing)
    ensures VerifyToken(Some("Bearer  x"), j, secret, now) == Reject(TokenMissing)
  {
    SplitSingle("Bearer", ' ');
    BearerSegmentOf("Bearer", "", "");
    BearerSegmentOf("Bearer", "", " x");
    assert "Bearer" + " " + "" + "" == "Bearer ";
    assert "Bearer" + " " + "" + " x" == "Bearer  x";
  }

  /**
   * A header "<scheme> <token><rest>", where `rest` is empty or starts a
   * further segment, passes exactly the claim the verifier decodes from
   * `token`, and is otherwise "Invalid token".
   */
  lemma VerifierDecides(scheme: string, token: string, rest: string, j: Signer, secret: Option<string>, now: nat)
    requires ' ' !in scheme && ' ' !in token && token != ""
    requires rest == [] || rest[0] == ' '
    ensures j.verify(token, secret, now).None? ==>
      VerifyToken(Some(scheme + " " + token + rest), j, secret, now) == Reject(InvalidToken)
    ensures j.verify(token, secret, now).Some? ==>
      VerifyToken(Some(scheme + " " + token + rest), j, secret, now) == Next(j.verify(token, secret, now).value)
  {
    BearerSegmentOf(scheme, token, rest);
  }

  /**
   * A non-empty header gets "Token missing" exactly when it has no space, or
   * its first space is followed by another space or ends the header.
   */
  lemma TokenMissingDecision(header: string, j: Signer, secret: Option<string>, now: nat)
    requires header != ""
    ensures VerifyToken(Some(header), j, secret, now) == Reject(TokenMissing)
        <==> (' ' !in header ||
              exists i :: 0 <= i < |header| && header[i] == ' ' && ' ' !in header[..i] &&
                          (i + 1 == |header| || header[i + 1] == ' '))
  {
    TokenMissingExactly(header);
  }
}
