/**
 The listener token: minted once as `user_<random>_<epoch-ms>`, kept in
 persistent client storage under `radiocalico_user_session`, and cached in
 memory. The random part and the clock are parameters.
 */
module Session {
  import opened Common
  import opened Decimal

  const SESSION_KEY := "radiocalico_user_session"
  const PREFIX := "user_"

  /** The in-memory `userSession` and the browser's key/value storage. */
  datatype SessionState = SessionState(userSession: Option<string>, storage: map<string, string>)

  /** `!userSession`: `null` and `""` are both falsy. */
  predicate Missing(token: Option<string>) {
    token.None? || token.value == ""
  }

  /** `'user_' + random + '_' + now` */
  function MintToken(random: string, now: nat): string {
    PREFIX + random + "_" + NatToDecimal(now)
  }

  /** `localStorage.getItem(key)`: `null` when absent. */
  function GetItem(storage: map<string, string>, key: string): Option<string> {
    if key in storage then Some(storage[key]) else None
  }

  datatype Generated = Generated(state: SessionState, token: string)

  /** `generateUserSession()`: mints and stores a token only when none is cached. */
  function GenerateUserSession(s: SessionState, random: string, now: nat): (r: Generated)
    ensures !Missing(s.userSession) ==> r == Generated(s, s.userSession.value)
    ensures Missing(s.userSession) ==>
              && r.token == MintToken(random, now)
              && r.state.storage == s.storage[SESSION_KEY := r.token]
    ensures r.state.userSession == Some(r.token) && r.token != ""
  {
    if Missing(s.userSession) then
      var token := MintToken(random, now);
      Generated(SessionState(Some(token), s.storage[SESSION_KEY := token]), token)
    else
      Generated(s, s.userSession.value)
  }

  /** `loadUserSession()`: adopts the stored token, minting one only when storage has none. */
  function LoadUserSession(s: SessionState, random: string, now: nat): (r: SessionState)
    ensures r.userSession.Some? && r.userSession.value != ""
    ensures SESSION_KEY in r.storage && r.storage[SESSION_KEY] == r.userSession.value
    ensures !Missing(GetItem(s.storage, SESSION_KEY)) ==>
              r == SessionState(Some(s.storage[SESSION_KEY]), s.storage)
    ensures Missing(GetItem(s.storage, SESSION_KEY)) ==>
              r.userSession == Some(MintToken(random, now))
    ensures forall k :: k in s.storage && k != SESSION_KEY ==> k in r.storage && r.storage[k] == s.storage[k]
  {
    var loaded := s.(userSession := GetItem(s.storage, SESSION_KEY));
    if Missing(loaded.userSession) then GenerateUserSession(loaded, random, now).state else loaded
  }

  /** Once a token is cached, further calls return it unchanged whatever the random source and clock say. */
  lemma GenerateIsCached(s: SessionState, r1: string, n1: nat, r2: string, n2: nat)
    ensures var first := GenerateUserSession(s, r1, n1);
            GenerateUserSession(first.state, r2, n2) == first
  {
  }

  /** Loading after a load keeps the same token: the stored token is read back verbatim. */
  lemma LoadIsStable(s: SessionState, r1: string, n1: nat, r2: string, n2: nat)
    ensures LoadUserSession(LoadUserSession(s, r1, n1), r2, n2) == LoadUserSession(s, r1, n1)
  {
  }

  // ----- the token format -----

  predicate AllTokenChars(s: string) {
    forall i :: 0 <= i < |s| ==> IsLowerAlnum(s[i])
  }

  /** The pattern `^user_[a-z0-9]+_\d+$`. */
  predicate MatchesTokenPattern(t: string) {
    && |t| > |PREFIX|
    && t[..|PREFIX|] == PREFIX
    && exists j :: |PREFIX| < j < |t| - 1 && t[j] == '_' && AllTokenChars(t[|PREFIX|..j]) && AllDigits(t[j + 1..])
  }

  /** The parts of a token: the random part and the minting time. */
  datatype TokenParts = TokenParts(random: string, mintedAt: nat)

  /** Position of the first `_` in `s`, or `|s|`. */
  function FirstUnderscore(s: string): (i: nat)
    ensures i <= |s|
    ensures i < |s| ==> s[i] == '_'
    ensures forall k :: 0 <= k < i ==> s[k] != '_'
  {
    if |s| == 0 || s[0] == '_' then 0 else 1 + FirstUnderscore(s[1..])
  }

  /** Splits a token back into its parts; `None` when it does not have the token shape. */
  function ParseToken(t: string): Option<TokenParts> {
    if |t| < |PREFIX| || t[..|PREFIX|] != PREFIX then None
    else
      var body := t[|PREFIX|..];
      var j := FirstUnderscore(body);
      if j == |body| || !AllDigits(body[j + 1..]) then None
      else Some(TokenParts(body[..j], DecimalValue(body[j + 1..])))
  }

  /** A minted token has the documented shape when the random part is non-empty `[a-z0-9]`. */
  lemma MintedTokenMatchesPattern(random: string, now: nat)
    requires |random| > 0 && AllTokenChars(random)
    ensures MatchesTokenPattern(MintToken(random, now))
  {
    var t := MintToken(random, now);
    var j := |PREFIX| + |random|;
    assert t[|PREFIX|..j] == random;
    assert t[j + 1..] == NatToDecimal(now);
  }

  /** Parsing a minted token recovers the random part and the time. */
  lemma ParseMintedToken(random: string, now: nat)
    requires AllTokenChars(random)
    ensures ParseToken(MintToken(random, now)) == Some(TokenParts(random, now))
  {
    var t := MintToken(random, now);
    assert t[..|PREFIX|] == PREFIX;
    var body := t[|PREFIX|..];
    assert body == random + "_" + NatToDecimal(now);
    var j := FirstUnderscore(body);
    assert body[|random|] == '_';
    assert j == |random|;
    assert body[..j] == random;
    assert body[j + 1..] == NatToDecimal(now);
    DecimalRoundTrip(now);
  }

  /** The test scenario: a stored token is loaded verbatim. */
  lemma StoredTokenIsLoaded(random: string, now: nat)
    ensures var s := SessionState(None, map[SESSION_KEY := "user_existing_123456789"]);
            LoadUserSession(s, random, now).userSession == Some("user_existing_123456789")
  {
  }
}
