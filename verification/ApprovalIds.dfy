/**
 Approval request ids: the canonical form the bridge mints, the older forms that may still be stored,
 and the declaration of live ids that a hello carries.
 */
module ApprovalIds {
  import opened Options
  import opened Hashing

  const MAX_ACTIVE_PENDING_IDS: nat := 1024

  predicate AllIn(s: string, ok: char -> bool) {
    forall k :: 0 <= k < |s| ==> ok(s[k])
  }

  /** `s`, twelve hex digits, `:apr-`, thirty-two hex digits. */
  predicate IsCanonical(id: string) {
    && |id| == 50
    && id[0] == 's' && AllIn(id[1..13], IsHexChar)
    && id[13..18] == ":apr-" && AllIn(id[18..], IsHexChar)
  }

  predicate IsSessionChar(c: char) {
    'A' <= c <= 'Z' || 'a' <= c <= 'z' || '0' <= c <= '9' || c == '_' || c == '.' || c == '-'
  }

  predicate IsTokenChar(c: char) {
    'A' <= c <= 'Z' || 'a' <= c <= 'z' || '0' <= c <= '9' || c == '_' || c == '-'
  }

  predicate IsDecimal(c: char) {
    '0' <= c <= '9'
  }

  predicate IsDigits(s: string, least: nat, most: nat) {
    least <= |s| <= most && AllIn(s, IsDecimal)
  }

  /** A session-like prefix of 1 to 128 characters, `:apr-`, and an older token form. */
  predicate LegacyAt(id: string, k: nat) {
    && 1 <= k <= 128 && k + 5 <= |id|
    && AllIn(id[..k], IsSessionChar) && id[k..k + 5] == ":apr-"
    && var token := id[k + 5..];
       || (|token| == 22 && AllIn(token, IsTokenChar))
       || IsDigits(token, 1, 9)
       || (|token| >= 15 && IsDigits(token[..13], 13, 13) && token[13] == '-' && IsDigits(token[14..], 1, 9))
  }

  /** The stored ids that may be retired: those a conforming declaration could have listed, now or in an earlier release. */
  predicate Retirable(id: string) {
    IsCanonical(id) || exists k :: 0 <= k < |id| && LegacyAt(id, k)
  }

  // ---------------------------------------------------------------------------------------------
  // The same, character by character.
  // ---------------------------------------------------------------------------------------------

  const TAG := ":apr-"
  const UPPER := "ABCDEFGHIJKLMNOPQRSTUVWXYZ"
  const LOWER := "abcdefghijklmnopqrstuvwxyz"
  const DIGITS := "0123456789"

  predicate Digits(s: string) {
    forall k :: 0 <= k < |s| ==> s[k] in DIGITS
  }

  predicate HexDigits(s: string) {
    forall k :: 0 <= k < |s| ==> s[k] in DIGITS || s[k] in "abcdef"
  }

  /** Letters, digits and these. */
  predicate LettersAnd(s: string, more: string) {
    forall k :: 0 <= k < |s| ==> s[k] in UPPER || s[k] in LOWER || s[k] in DIGITS || s[k] in more
  }

  lemma Upper(c: char)
    ensures c in UPPER <==> 'A' <= c <= 'Z'
  {
  }

  lemma Lower(c: char)
    ensures c in LOWER <==> 'a' <= c <= 'z'
    ensures c in "abcdef" <==> 'a' <= c <= 'f'
  {
  }

  lemma Digit(c: char)
    ensures c in DIGITS <==> '0' <= c <= '9'
  {
  }

  lemma DigitsAre(s: string)
    ensures Digits(s) <==> AllIn(s, IsDecimal)
  {
    forall k | 0 <= k < |s| ensures s[k] in DIGITS <==> IsDecimal(s[k]) { Digit(s[k]); }
  }

  lemma HexDigitsAre(s: string)
    ensures HexDigits(s) <==> AllIn(s, IsHexChar)
  {
    forall k | 0 <= k < |s| ensures s[k] in DIGITS || s[k] in "abcdef" <==> IsHexChar(s[k]) { Digit(s[k]); Lower(s[k]); }
  }

  lemma SessionIs(s: string)
    ensures LettersAnd(s, "_.-") <==> AllIn(s, IsSessionChar)
  {
    forall k | 0 <= k < |s|
      ensures s[k] in UPPER || s[k] in LOWER || s[k] in DIGITS || s[k] in "_.-" <==> IsSessionChar(s[k])
    {
      Upper(s[k]);
      Lower(s[k]);
      Digit(s[k]);
    }
  }

  lemma TokenIs(s: string)
    ensures LettersAnd(s, "_-") <==> AllIn(s, IsTokenChar)
  {
    forall k | 0 <= k < |s|
      ensures s[k] in UPPER || s[k] in LOWER || s[k] in DIGITS || s[k] in "_-" <==> IsTokenChar(s[k])
    {
      Upper(s[k]);
      Lower(s[k]);
      Digit(s[k]);
    }
  }

  /** An older token: 22 URL-safe characters, up to nine digits, or a millisecond time and up to nine digits. */
  ghost predicate OldToken(token: string) {
    || (|token| == 22 && LettersAnd(token, "_-"))
    || (1 <= |token| <= 9 && Digits(token))
    || exists time, n :: TimeAndCount(token, time, n)
  }

  predicate TimeAndCount(token: string, time: string, n: string) {
    |time| == 13 && Digits(time) && 1 <= |n| <= 9 && Digits(n) && token == time + "-" + n
  }

  /** The two parts of an id that may be retired: a hashed session and 32 hex digits, or a session and an older token. */
  ghost predicate RetirableParts(session: string, token: string) {
    || (|session| == 13 && session[0] == 's' && HexDigits(session[1..]) && |token| == 32 && HexDigits(token))
    || (1 <= |session| <= 128 && LettersAnd(session, "_.-") && OldToken(token))
  }

  /** The ids that may be retired are exactly those made of such parts: the current form and every form shipped before. */
  lemma RetirableExact(id: string)
    ensures Retirable(id) <==> exists session, token :: RetirableParts(session, token) && id == session + TAG + token
  {
    if IsCanonical(id) {
      CanonicalParts(id);
    } else if Retirable(id) {
      var k :| 0 <= k < |id| && LegacyAt(id, k);
      LegacyParts(id, k);
    }
    if session, token :| RetirableParts(session, token) && id == session + TAG + token {
      PartsRetirable(session, token);
    }
  }

  lemma CanonicalParts(id: string)
    requires IsCanonical(id)
    ensures exists session, token :: RetirableParts(session, token) && id == session + TAG + token
  {
    var session, token := id[..13], id[18..];
    HexDigitsAre(session[1..]);
    HexDigitsAre(token);
    assert session[1..] == id[1..13];
    assert id == session + id[13..18] + token;
    assert RetirableParts(session, token);
  }

  /** The three older tokens as the patterns have them. */
  predicate TokenForms(token: string) {
    || (|token| == 22 && AllIn(token, IsTokenChar))
    || IsDigits(token, 1, 9)
    || (|token| >= 15 && IsDigits(token[..13], 13, 13) && token[13] == '-' && IsDigits(token[14..], 1, 9))
  }

  lemma TimedToken(token: string)
    ensures (|token| >= 15 && IsDigits(token[..13], 13, 13) && token[13] == '-' && IsDigits(token[14..], 1, 9))
      <==> exists time, n :: TimeAndCount(token, time, n)
  {
    if |token| >= 15 && IsDigits(token[..13], 13, 13) && token[13] == '-' && IsDigits(token[14..], 1, 9) {
      DigitsAre(token[..13]);
      DigitsAre(token[14..]);
      assert token == token[..13] + "-" + token[14..];
      assert TimeAndCount(token, token[..13], token[14..]);
    }
    if time, n :| TimeAndCount(token, time, n) {
      DigitsAre(time);
      DigitsAre(n);
      assert token[..13] == time && token[14..] == n;
    }
  }

  lemma OldTokenForms(token: string)
    ensures OldToken(token) <==> TokenForms(token)
  {
    TokenIs(token);
    DigitsAre(token);
    TimedToken(token);
  }

  lemma LegacyParts(id: string, k: nat)
    requires k < |id| && LegacyAt(id, k)
    ensures exists session, token :: RetirableParts(session, token) && id == session + TAG + token
  {
    var session, token := id[..k], id[k + 5..];
    assert id == session + id[k..k + 5] + token;
    SessionIs(session);
    OldTokenForms(token);
    assert RetirableParts(session, token);
  }

  lemma PartsRetirable(session: string, token: string)
    requires RetirableParts(session, token)
    ensures Retirable(session + TAG + token)
  {
    var id, k := session + TAG + token, |session|;
    assert |TAG| == 5 && id[..k] == session && id[k..k + 5] == TAG && id[k + 5..] == token;
    if |session| == 13 && session[0] == 's' && HexDigits(session[1..]) && |token| == 32 && HexDigits(token) {
      HexDigitsAre(session[1..]);
      HexDigitsAre(token);
      assert id[1..13] == session[1..];
      assert IsCanonical(id);
    } else {
      SessionIs(session);
      OldTokenForms(token);
      assert LegacyAt(id, k);
    }
  }

  /** An id the redactor has put a marker into is never retired. */
  lemma RetirableIsPlain(id: string)
    requires Retirable(id)
    ensures '[' !in id
  {
    if IsCanonical(id) {
      assert id == [id[0]] + id[1..13] + id[13..18] + id[18..];
      assert id[13..18] == [':', 'a', 'p', 'r', '-'];
    } else {
      var k :| 0 <= k < |id| && LegacyAt(id, k);
      LegacyIsPlain(id, k);
    }
  }

  lemma LegacyIsPlain(id: string, k: nat)
    requires k < |id| && LegacyAt(id, k)
    ensures '[' !in id
  {
    var token := id[k + 5..];
    assert id == id[..k] + id[k..k + 5] + token;
    assert id[k..k + 5] == [':', 'a', 'p', 'r', '-'];
    TokenIsPlain(token);
  }

  lemma TokenIsPlain(token: string)
    requires TokenForms(token)
    ensures '[' !in token
  {
    if |token| >= 15 { assert token == token[..13] + [token[13]] + token[14..]; }
  }

  /** The declared ids: all of them, or none at all if there are too many or any is malformed. */
  function ParseActive(raw: seq<string>): Option<set<string>> {
    if |raw| <= MAX_ACTIVE_PENDING_IDS && (forall k :: 0 <= k < |raw| ==> IsCanonical(raw[k]))
    then Some(set id | id in raw)
    else None
  }

  method ParseActivePendingRequestIds(raw: seq<string>) returns (r: Option<set<string>>)
    ensures r == ParseActive(raw)
    ensures r.Some? <==> |raw| <= 1024 && forall id :: id in raw ==> IsCanonical(id)
    ensures r.Some? ==> forall id :: id in r.value <==> id in raw
  {
    if |raw| > MAX_ACTIVE_PENDING_IDS {
      return None;
    }
    var ids: set<string> := {};
    for n := 0 to |raw|
      invariant forall k :: 0 <= k < n ==> IsCanonical(raw[k])
      invariant ids == set id | id in raw[..n]
    {
      assert raw[..n + 1] == raw[..n] + [raw[n]];
      if !IsCanonical(raw[n]) {
        return None;
      }
      ids := ids + {raw[n]};
    }
    assert raw[..|raw|] == raw;
    return Some(ids);
  }
}
