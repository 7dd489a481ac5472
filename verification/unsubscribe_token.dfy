/**
 * The unsubscribe-link token: an HMAC-SHA256 hex digest, keyed by the
 * configured secret, over the email after `strip().lower()`, and its
 * constant-time check.
 */
module UnsubscribeToken {
  import opened Results
  import opened Text

  const HexDigits := "0123456789abcdef"

  /** What `hexdigest()` of a SHA-256 HMAC looks like: 64 lower-case hex digits. */
  predicate IsHexDigest(s: string) {
    |s| == 64 && forall i :: 0 <= i < |s| ==> s[i] in HexDigits
  }

  type HexDigest = s: string | IsHexDigest(s) witness seq(64, _ => '0')

  /**
   * HMAC-SHA256 keyed by the first argument over the UTF-8 bytes of the
   * second, as a hex digest. Its internals are not modelled: any function
   * of this type may stand for it.
   */
  type Mac = (string, string) -> HexDigest

  /** The environment variables `SECRET_KEY` and `BASE_URL`, each possibly unset. */
  datatype Config = Config(secretKey: Option<string>, baseUrl: Option<string>)

  /** `RuntimeError` from `require_unsub_config`, and `TypeError` from `compare_digest`. */
  datatype TokenError = MissingConfig | NonAsciiComparison

  /** `x or ""`: an unset string is read as the empty one. */
  function OrEmpty(x: Option<string>): string {
    match x
    case Some(t) => t
    case None => ""
  }

  /** `require_unsub_config` passes: neither variable is falsy, that is unset or empty. */
  predicate Configured(cfg: Config): (ok: bool)
    ensures ok <==> OrEmpty(cfg.secretKey) != "" && OrEmpty(cfg.baseUrl) != ""
  {
    && cfg.secretKey.Some? && cfg.secretKey.value != ""
    && cfg.baseUrl.Some? && cfg.baseUrl.value != ""
  }

  predicate IsAscii(s: string) {
    forall i :: 0 <= i < |s| ==> s[i] as int < 128
  }

  /** A hex digest consists of ASCII characters only. */
  lemma HexDigestIsAscii(h: HexDigest)
    ensures IsAscii(h)
  {
    forall i | 0 <= i < |h|
      ensures h[i] as int < 128
    {
      assert h[i] in HexDigits;
    }
  }

  /** `email.strip().lower()`. */
  function Normalize(email: string): (r: string)
    ensures |r| <= |email|
    ensures r == [] || (!IsSpace(r[0]) && !IsSpace(r[|r| - 1]))
    ensures forall i :: 0 <= i < |r| ==> !IsUpper(r[i])
    ensures |r| == |Strip(email)| && forall i :: 0 <= i < |r| ==> r[i] == LowerChar(Strip(email)[i])
  {
    var s := Strip(email);
    LowerKeepsStripped(s);
    Lower(s)
  }

  /** Normalising a normalised email changes nothing. */
  lemma NormalizeIdempotent(email: string)
    ensures Normalize(Normalize(email)) == Normalize(email)
  {
    var n := Normalize(email);
    StripOfStripped(n);
    LowerIdempotent(Strip(email));
  }

  /**
   * `make_unsub_token`: fails when the configuration is missing, and
   * otherwise is the MAC of the normalised email under the secret.
   */
  function MakeUnsubToken(cfg: Config, mac: Mac, email: string): (r: Result<HexDigest, TokenError>)
    ensures r.Err? <==> !Configured(cfg)
    ensures r.Err? ==> r.error == MissingConfig
    ensures r.Ok? ==> r.value == mac(cfg.secretKey.value, Normalize(email))
  {
    if !Configured(cfg) then Err(MissingConfig)
    else Ok(mac(cfg.secretKey.value, Normalize(email)))
  }

  /** The token depends on the email only through its normal form. */
  lemma TokenOfNormalForm(cfg: Config, mac: Mac, email: string)
    ensures MakeUnsubToken(cfg, mac, Normalize(email)) == MakeUnsubToken(cfg, mac, email)
  {
    NormalizeIdempotent(email);
  }

  /** Upper-case letters in the email do not change its token. */
  lemma TokenIgnoresCase(cfg: Config, mac: Mac, email: string)
    ensures MakeUnsubToken(cfg, mac, Lower(email)) == MakeUnsubToken(cfg, mac, email)
  {
    StripLower(email);
    LowerIdempotent(Strip(email));
  }

  /** Leading whitespace in the email does not change its token. */
  lemma TokenIgnoresLeadingSpace(cfg: Config, mac: Mac, email: string, c: char)
    requires IsSpace(c)
    ensures MakeUnsubToken(cfg, mac, [c] + email) == MakeUnsubToken(cfg, mac, email)
  {
    assert ([c] + email)[1..] == email;
  }

  /**
   * `verify_unsub_token` as written: `hmac.compare_digest` on two `str`
   * values raises `TypeError` when either holds a non-ASCII character, so
   * a garbled token raises instead of being rejected.
   */
  function VerifyUnsubTokenAsWritten(cfg: Config, mac: Mac, email: string, token: Option<string>): (r: Result<bool, TokenError>)
    ensures !Configured(cfg) ==> r == Err(MissingConfig)
    ensures Configured(cfg) && !IsAscii(OrEmpty(token)) ==> r == Err(NonAsciiComparison)
    ensures Configured(cfg) && IsAscii(OrEmpty(token)) ==>
              r == Ok(MakeUnsubToken(cfg, mac, email) == Ok(OrEmpty(token)))
  {
    match MakeUnsubToken(cfg, mac, email)
    case Err(e) => Err(e)
    case Ok(expected) =>
      var given := OrEmpty(token);
      HexDigestIsAscii(expected);
      if !IsAscii(given) then Err(NonAsciiComparison) else Ok(expected == given)
  }

  /** The input that shows it: a configured service raises on the token "é". */
  lemma AsWrittenRaisesOnNonAsciiToken(cfg: Config, mac: Mac, email: string)
    requires Configured(cfg)
    ensures VerifyUnsubTokenAsWritten(cfg, mac, email, Some("\U{E9}")) == Err(NonAsciiComparison)
  {
    var garbled := "\U{E9}";
    assert garbled[0] as int == 0xE9;
  }

  /**
   * `verify_unsub_token` as intended: a configured service answers every
   * token with true or false, true exactly for the email's own token.
   */
  function VerifyUnsubToken(cfg: Config, mac: Mac, email: string, token: Option<string>): (r: Result<bool, TokenError>)
    ensures r.Err? <==> !Configured(cfg)
    ensures r.Err? ==> r.error == MissingConfig
    ensures r.Ok? ==> (r.value <==> token.Some? && MakeUnsubToken(cfg, mac, email) == Ok(token.value))
  {
    match MakeUnsubToken(cfg, mac, email)
    case Err(e) => Err(e)
    case Ok(expected) =>
      var given := OrEmpty(token);
      assert |expected| == 64;
      Ok(expected == given)
  }

  /** A token made for an email verifies for it, under any casing or padding of that email. */
  lemma VerifyAcceptsOwnToken(cfg: Config, mac: Mac, email: string, other: string)
    requires Configured(cfg) && Normalize(other) == Normalize(email)
    ensures VerifyUnsubToken(cfg, mac, other, Some(MakeUnsubToken(cfg, mac, email).value)) == Ok(true)
    ensures VerifyUnsubTokenAsWritten(cfg, mac, other, Some(MakeUnsubToken(cfg, mac, email).value)) == Ok(true)
  {
    HexDigestIsAscii(MakeUnsubToken(cfg, mac, email).value);
  }

  /** Wherever the code as written answers, the corrected check gives the same answer. */
  lemma VerifyAgreesWhereAsWrittenAnswers(cfg: Config, mac: Mac, email: string, token: Option<string>)
    requires VerifyUnsubTokenAsWritten(cfg, mac, email, token).Ok?
    ensures VerifyUnsubToken(cfg, mac, email, token) == VerifyUnsubTokenAsWritten(cfg, mac, email, token)
  {
  }
}
