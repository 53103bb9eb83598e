/** Stand-ins for the two foreign libraries the service calls: bcrypt (password hashing) and
    JSON Web Tokens (signed session tokens). Their internals are not modelled; each is replaced
    by a deterministic function. The rest of the model relies on the laws proved here: a
    password checks against its own hash and no other, a signed token verifies to the claims it
    was signed for, and a token that verifies is the signature of those claims. The last law is
    particular to the stand-in, where each claims value has exactly one token; a real JWT for the
    same claims can differ (another `iat`, `exp` or algorithm) and still verify. */
module Crypto {
  import opened Base
  import opened Text

  /** The identity claims a session token carries: `{ id, username, role }`. */
  datatype Claims = Claims(id: nat, username: string, role: string)

  /** A 32-bit polynomial digest; stands in for the MAC internals. */
  function Digest(s: string): nat
  {
    if s == [] then 0
    else (Digest(s[..|s| - 1]) * 31 + s[|s| - 1] as int) % 0x1_0000_0000
  }

  /** The marker of a bcrypt hash with cost factor 10. */
  const BcryptPrefix := "$2a$10$"

  /** Stand-in for `bcrypt.hash(password, 10)`: the marker, then an injective encoding of the
      password. Salt randomness and one-wayness are not modelled. */
  function Hash(password: string): (h: string)
    ensures BcryptPrefix <= h
  {
    BcryptPrefix + Escape(password)
  }

  /** Stand-in for `bcrypt.compare(password, h)`: accepts the hash of `password`, and nothing
      that lacks the bcrypt marker. */
  function Check(password: string, h: string): (ok: bool)
    ensures h == Hash(password) ==> ok
    ensures ok ==> BcryptPrefix <= h
  {
    h == Hash(password)
  }

  /** A password is rejected by the hash of any other password. */
  lemma {:induction false} CheckRejectsOther(password: string, other: string)
    ensures Check(password, Hash(other)) <==> password == other
  {
    if Check(password, Hash(other)) {
      var n := |BcryptPrefix|;
      assert Hash(password)[n..] == Escape(password);
      assert Hash(other)[n..] == Escape(other);
      UnescapeEscape(password);
      UnescapeEscape(other);
    }
  }

  /** A password is accepted by the hash made from it. */
  lemma CheckHash(password: string)
    ensures Check(password, Hash(password))
  {
  }

  /** The message authentication code of a token payload under `secret`. */
  function Mac(secret: string, payload: string): (m: string)
    ensures Canonical(m)
  {
    NatToDigits(Digest(secret + "." + payload))
  }

  /** The three claim fields of a token, each free of dots and spaces. */
  function ClaimFields(c: Claims): (fields: seq<string>)
    ensures |fields| == 3
    ensures forall i :: 0 <= i < 3 ==> '.' !in fields[i] && ' ' !in fields[i]
  {
    [NatToDigits(c.id), Escape(c.username), Escape(c.role)]
  }

  /** The four dot-separated fields of the token for `c`: the claims, then the MAC over them. */
  function TokenFields(secret: string, c: Claims): seq<string>
  {
    var claims := ClaimFields(c);
    claims + [Mac(secret, Join(claims, '.'))]
  }

  /** Stand-in for `jwt.sign(c, secret)`: a non-empty token with no space in it. */
  function Sign(secret: string, c: Claims): (token: string)
    ensures token != "" && ' ' !in token
  {
    var fields := TokenFields(secret, c);
    assert forall i :: 0 <= i < 4 ==> ' ' !in fields[i];
    JoinAvoids(fields, '.', ' ');
    Join(fields, '.')
  }

  /** Stand-in for `jwt.verify(token, secret)`: the claims of a well-formed token whose MAC
      matches, or `None` for any error. Only a signature is accepted: a token that verifies is
      the signature of the claims it yields. */
  function Verify(secret: string, token: string): (r: Option<Claims>)
    ensures r.Some? ==> token == Sign(secret, r.value)
  {
    var parts := Split(token, '.');
    if |parts| != 4 || parts[3] != Mac(secret, Join(parts[..3], '.')) then None
    else
      match (ParseNat(parts[0]), Unescape(parts[1]), Unescape(parts[2]))
      case (Some(id), Some(name), Some(role)) =>
        var c := Claims(id, name, role);
        DigitsParseNat(parts[0], id);
        EscapeUnescape(parts[1], name);
        EscapeUnescape(parts[2], role);
        assert parts[..3] == ClaimFields(c);
        assert parts == TokenFields(secret, c);
        Some(c)
      case _ => None
  }

  /** A signed token verifies under the same secret and yields exactly the signed claims. */
  lemma {:induction false} VerifySign(secret: string, c: Claims)
    ensures Verify(secret, Sign(secret, c)) == Some(c)
  {
    var fields := TokenFields(secret, c);
    assert forall i :: 0 <= i < 4 ==> '.' !in fields[i];
    SplitJoin(fields, '.');
    assert fields[..3] == ClaimFields(c);
    ParseNatDigits(c.id);
    UnescapeEscape(c.username);
    UnescapeEscape(c.role);
  }

  /** The two laws together: verification accepts a token exactly when it is a signature. */
  lemma VerifyIffSigned(secret: string, token: string, c: Claims)
    ensures Verify(secret, token) == Some(c) <==> token == Sign(secret, c)
  {
    if token == Sign(secret, c) {
      VerifySign(secret, c);
    }
  }
}
