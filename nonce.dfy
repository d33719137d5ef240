/**
 * Correlation tokens (Sources/Nonce.swift): `"sync;"` or `"async;"` followed by a UUID.
 * The prefix tells the dispatcher whether a blocked caller or the asynchronous handlers
 * wait for the reply.
 */
module Nonce {
  import opened Wrappers
  import opened Text

  datatype NonceError = Invalid(nonce: string)

  predicate IsHexDigit(c: char)
  {
    '0' <= c <= '9' || 'A' <= c <= 'F' || 'a' <= c <= 'f'
  }

  /** The RFC 4122 text form `UUID().uuidString` produces: 8-4-4-4-12 hex digits separated by '-'. */
  predicate IsUuidString(u: string)
  {
    |u| == 36 &&
    forall i :: 0 <= i < 36 ==> if i == 8 || i == 13 || i == 18 || i == 23 then u[i] == '-' else IsHexDigit(u[i])
  }

  lemma UuidHasNoSeparator(u: string)
    requires IsUuidString(u)
    ensures NoneIn(u, {';'})
  {
    forall i | 0 <= i < |u| ensures u[i] != ';' {
      if i == 8 || i == 13 || i == 18 || i == 23 {
      } else {
        assert IsHexDigit(u[i]);
      }
    }
  }

  /**
   * `generateNonce(async:)`; the UUID text is a parameter, since the source draws it at random.
   * The nonce ends with the UUID, right after a ';'.
   */
  function GenerateNonce(uuid: string, async: bool := false): (n: string)
    ensures |n| == |uuid| + (if async then 6 else 5)
    ensures n[|n| - |uuid| - 1] == ';' && n[|n| - |uuid|..] == uuid
  {
    (if async then "async" else "sync") + ";" + uuid
  }

  /**
   * `isNonceAsync(nonce:)`: the nonce must split on ';' into exactly two parts whose
   * first is "async" or "sync"; the second part is not looked at.
   */
  function IsNonceAsync(nonce: string): (r: Result<bool, NonceError>)
    ensures r.Failure? ==> r.error == Invalid(nonce)
  {
    var parts := Components(nonce, {';'});
    if |parts| != 2 || (parts[0] != "async" && parts[0] != "sync") then Failure(Invalid(nonce))
    else Success(parts[0] == "async")
  }

  /** `prefix;rest` with no ';' in `rest` splits into exactly those two parts. */
  lemma PrefixedParts(prefix: string, rest: string)
    requires NoneIn(prefix, {';'}) && NoneIn(rest, {';'})
    ensures Components(prefix + ";" + rest, {';'}) == [prefix, rest]
  {
    ComponentsOfRun(prefix, ';', rest, {';'});
    ComponentsOfPlain(rest, {';'});
  }

  /** Whatever UUID text (without ';') is used, the nonce reads back with the kind it was made with. */
  lemma NonceRoundTrip(uuid: string, async: bool)
    requires NoneIn(uuid, {';'})
    ensures IsNonceAsync(GenerateNonce(uuid, async)) == Success(async)
  {
    PrefixedParts(if async then "async" else "sync", uuid);
  }

  /** In particular for every nonce the source can generate. */
  lemma GeneratedNonceRoundTrip(uuid: string, async: bool)
    requires IsUuidString(uuid)
    ensures IsNonceAsync(GenerateNonce(uuid, async)) == Success(async)
  {
    UuidHasNoSeparator(uuid);
    NonceRoundTrip(uuid, async);
  }

  /** `generateNonce()` without an argument makes a synchronous nonce. */
  lemma DefaultNonceIsSync(uuid: string)
    ensures GenerateNonce(uuid)[..5] == "sync;"
    ensures NoneIn(uuid, {';'}) ==> IsNonceAsync(GenerateNonce(uuid)) == Success(false)
  {
    if NoneIn(uuid, {';'}) {
      NonceRoundTrip(uuid, false);
    }
  }

  /** A nonce with no ';', or with two or more, is rejected whatever its first part. */
  lemma SeparatorCountRejected(nonce: string)
    requires Occurrences(nonce, ';') != 1
    ensures IsNonceAsync(nonce) == Failure(Invalid(nonce))
  {
    ComponentsCount(nonce, ';');
  }

  /** Splitting on the only ';': the nonce is the first part, ';', and the second part. */
  lemma TwoParts(nonce: string)
    requires |Components(nonce, {';'})| == 2
    ensures var parts := Components(nonce, {';'});
      nonce == parts[0] + ";" + parts[1] && NoneIn(parts[1], {';'})
  {
    JoinOfComponents(nonce, ';');
  }

  /**
   * The accepted nonces, independently of how they are split: exactly `"async;" + id` and
   * `"sync;" + id` with no ';' in `id` (the empty id included); every other string throws.
   */
  lemma NonceShape(nonce: string)
    ensures IsNonceAsync(nonce) == Success(true) <==>
      |nonce| >= 6 && nonce[..6] == "async;" && NoneIn(nonce[6..], {';'})
    ensures IsNonceAsync(nonce) == Success(false) <==>
      |nonce| >= 5 && nonce[..5] == "sync;" && NoneIn(nonce[5..], {';'})
    ensures IsNonceAsync(nonce).Failure? <==>
      !(|nonce| >= 6 && nonce[..6] == "async;" && NoneIn(nonce[6..], {';'})) &&
      !(|nonce| >= 5 && nonce[..5] == "sync;" && NoneIn(nonce[5..], {';'}))
  {
    var parts := Components(nonce, {';'});
    if |parts| == 2 {
      TwoParts(nonce);
    }
    if |nonce| >= 6 && nonce[..6] == "async;" && NoneIn(nonce[6..], {';'}) {
      assert nonce == "async" + ";" + nonce[6..];
      PrefixedParts("async", nonce[6..]);
    }
    if |nonce| >= 5 && nonce[..5] == "sync;" && NoneIn(nonce[5..], {';'}) {
      assert nonce == "sync" + ";" + nonce[5..];
      PrefixedParts("sync", nonce[5..]);
    }
    if IsNonceAsync(nonce).Success? {
      assert nonce == parts[0] + ";" + parts[1];
      if parts[0] == "async" {
        assert nonce[..6] == "async;" && nonce[6..] == parts[1];
      } else {
        assert nonce[..5] == "sync;" && nonce[5..] == parts[1];
      }
    }
  }

  /** The part after ';' is not inspected: a bare "sync;" is a valid synchronous nonce. */
  lemma EmptyIdAccepted()
    ensures IsNonceAsync("sync;") == Success(false)
    ensures IsNonceAsync("async;") == Success(true)
  {
    PrefixedParts("sync", "");
    assert "sync" + ";" + "" == "sync;";
    PrefixedParts("async", "");
    assert "async" + ";" + "" == "async;";
  }
}
