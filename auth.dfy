/** The server's two guards: the one that reads the signed token from the
    `Authorization` header (a bare token, or the `Bearer <token>` form of
    section 2.1 of RFC 6750) and admits the user it names, and the one that
    admits only a SuperAdmin. Signature checking is a parameter. */
module Auth {
  import opened Common

  /** The `user` a verified token carries. */
  datatype User = User(id: string, role: string)

  /** `s.split(c)`: the pieces between the separators, in order; `n`
      separators give `n + 1` pieces, some of them perhaps empty. */
  function Split(s: string, c: char): (r: seq<string>)
    ensures |r| >= 1
    ensures forall i :: 0 <= i < |r| ==> c !in r[i]
    ensures c in s <==> |r| >= 2
  {
    if s == [] then [""]
    else
      var rest := Split(s[1..], c);
      if s[0] == c then [""] + rest
      else
        assert s == [s[0]] + s[1..];
        [[s[0]] + rest[0]] + rest[1..]
  }

  /** `pieces.join(c)`. */
  function Join(pieces: seq<string>, c: char): string
    requires |pieces| >= 1
  {
    if |pieces| == 1 then pieces[0] else pieces[0] + [c] + Join(pieces[1..], c)
  }

  /** Splitting and joining again gives back the header. */
  lemma {:induction false} SplitJoin(s: string, c: char)
    ensures Join(Split(s, c), c) == s
    decreases |s|
  {
    if s != [] {
      SplitJoin(s[1..], c);
      var rest := Split(s[1..], c);
      if s[0] != c {
        if |rest| == 1 {
          assert Split(s, c) == [[s[0]] + rest[0]];
        } else {
          var r := Split(s, c);
          assert r[1..] == rest[1..];
          assert Join(r, c) == [s[0]] + (rest[0] + [c] + Join(rest[1..], c));
        }
        assert s == [s[0]] + s[1..];
      }
    }
  }

  /** A text without the separator is one piece. */
  lemma {:induction false} SplitNone(s: string, c: char)
    requires c !in s
    ensures Split(s, c) == [s]
    decreases |s|
  {
    if s != [] {
      SplitNone(s[1..], c);
      assert [s[0]] + s[1..] == s;
    }
  }

  /** A text with a separator after its first piece splits into that piece
      and the pieces of the rest. */
  lemma {:induction false} SplitFirst(a: string, c: char, b: string)
    requires c !in a
    ensures Split(a + [c] + b, c) == [a] + Split(b, c)
    decreases |a|
  {
    if a == [] {
      assert [c] + b == [c] + b;
      assert ([c] + b)[1..] == b;
    } else {
      assert (a + [c] + b)[1..] == a[1..] + [c] + b;
      SplitFirst(a[1..], c, b);
      assert [a[0]] + a[1..] == a;
    }
  }

  predicate StartsWith(s: string, prefix: string) {
    |prefix| <= |s| && s[..|prefix|] == prefix
  }

  /** `token.startsWith('Bearer ') ? token.split(' ')[1] : token`. */
  function BearerToken(header: string): (token: string)
    ensures StartsWith(header, "Bearer ") ==> ' ' !in token
    ensures !StartsWith(header, "Bearer ") ==> token == header
  {
    if StartsWith(header, "Bearer ") then
      assert header[6] == ' ';
      Split(header, ' ')[1]
    else header
  }

  /** The token a client sends as `Bearer <token>` is the token checked,
      when the token has no space in it. */
  lemma BearerRoundTrip(token: string)
    requires ' ' !in token
    ensures BearerToken("Bearer " + token) == token
  {
    var h := "Bearer " + token;
    assert h == "Bearer" + [' '] + token;
    assert StartsWith(h, "Bearer ") by { assert h[..7] == "Bearer "; }
    SplitFirst("Bearer", ' ', token);
    SplitNone(token, ' ');
  }

  /** Only the second piece counts: anything after a further space is
      dropped. */
  lemma BearerDropsRest(token: string, rest: string)
    requires ' ' !in token
    ensures BearerToken("Bearer " + token + " " + rest) == token
  {
    var h := "Bearer " + token + " " + rest;
    assert h == "Bearer" + [' '] + (token + [' '] + rest);
    assert StartsWith(h, "Bearer ") by { assert h[..7] == "Bearer "; }
    SplitFirst("Bearer", ' ', token + [' '] + rest);
    SplitFirst(token, ' ', rest);
  }

  /** A guard's decision: the status and `msg` it answers with, or the
      request goes on (`next()`) with the user set. */
  datatype Verdict = Reject(status: int, msg: string) | Proceed(user: User)

  /** `authMiddleware`, with `verify` the signature check (`None` when
      `jwt.verify` throws). A missing or empty header is refused at once. */
  function Authenticate(header: Option<string>, verify: string -> Option<User>): (v: Verdict)
    ensures header.None? || header.value == "" ==> v == Reject(401, "No token, authorization denied")
    ensures v.Proceed? <==> header.Some? && header.value != "" && verify(BearerToken(header.value)).Some?
    ensures v.Proceed? ==> v.user == verify(BearerToken(header.value)).value
    ensures v.Reject? ==> v.status == 401
  {
    if header.None? || header.value == "" then Reject(401, "No token, authorization denied")
    else match verify(BearerToken(header.value))
      case None => Reject(401, "Token is not valid")
      case Some(user) => Proceed(user)
  }

  /** A client using the `Bearer` form is admitted exactly when its token
      verifies, as the user the token names. */
  lemma BearerAdmitted(token: string, verify: string -> Option<User>)
    requires ' ' !in token
    ensures Authenticate(Some("Bearer " + token), verify) ==
      if verify(token).Some? then Proceed(verify(token).value) else Reject(401, "Token is not valid")
  {
    BearerRoundTrip(token);
  }

  /** `superAdminMiddleware`. */
  function RequireSuperAdmin(user: User): (v: Verdict)
    ensures v.Proceed? <==> user.role == "SuperAdmin"
    ensures v.Proceed? ==> v.user == user
    ensures v.Reject? ==> v == Reject(403, "Access denied. SuperAdmin restricted.")
  {
    if user.role != "SuperAdmin" then Reject(403, "Access denied. SuperAdmin restricted.") else Proceed(user)
  }

  /** What a guard leaves on the request and the response. */
  class Exchange {
    var user: Option<User>
    var status: Option<int>
    var msg: Option<string>
    var passed: bool

    constructor ()
      ensures user == None && status == None && msg == None && !passed
    {
      user := None;
      status := None;
      msg := None;
      passed := false;
    }

    /** `authMiddleware` on this request: it sets `req.user` and calls
      `next`, or answers and stops. */
    method AuthMiddleware(header: Option<string>, verify: string -> Option<User>)
      modifies this
      ensures Authenticate(header, verify).Proceed? ==>
        user == Some(Authenticate(header, verify).user) && passed && status == old(status) && msg == old(msg)
      ensures Authenticate(header, verify).Reject? ==>
        status == Some(Authenticate(header, verify).status) && msg == Some(Authenticate(header, verify).msg)
        && !passed && user == old(user)
    {
      if header.None? || header.value == "" {
        status, msg, passed := Some(401), Some("No token, authorization denied"), false;
        return;
      }
      var token := BearerToken(header.value);
      var decoded := verify(token);
      if decoded.None? {
        status, msg, passed := Some(401), Some("Token is not valid"), false;
        return;
      }
      user := Some(decoded.value);
      passed := true;
    }

    /** `superAdminMiddleware` after `authMiddleware` has set the user. */
    method SuperAdminMiddleware()
      requires user.Some?
      modifies this
      ensures user == old(user)
      ensures RequireSuperAdmin(user.value).Proceed? ==> passed && status == old(status) && msg == old(msg)
      ensures RequireSuperAdmin(user.value).Reject? ==>
        !passed && status == Some(403) && msg == Some("Access denied. SuperAdmin restricted.")
    {
      if user.value.role != "SuperAdmin" {
        status, msg, passed := Some(403), Some("Access denied. SuperAdmin restricted."), false;
        return;
      }
      passed := true;
    }
  }
}
