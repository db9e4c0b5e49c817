/** The credential record kept in `tokens.json`, and the conversion of its expiry between
    the stored millisecond timestamp (or null) and the Date the auth provider works with.
    Reading and writing the file and the JSON text itself are not modelled. */
module Tokens {

  import opened Wrappers

  /** The largest magnitude a Date's time value may have: 8.64e15 ms, 100 000 000 days. */
  const MaxTime: int := 8_640_000_000_000_000

  /** A Date's time value: a whole number of milliseconds, or NaN for an invalid Date. */
  datatype TimeValue = Finite(ms: int) | NaN

  datatype Date = Date(time: TimeValue)

  predicate InRange(t: int) {
    -MaxTime <= t <= MaxTime
  }

  /** Every Date the runtime makes holds a clipped time value. */
  predicate ValidDate(d: Date) {
    d.time.Finite? ==> InRange(d.time.ms)
  }

  /** `new Date(t)` for an integral `t`: out-of-range values give an invalid Date. */
  function NewDate(t: int): (d: Date)
    ensures ValidDate(d)
    ensures d.time.Finite? <==> InRange(t)
    ensures d.time.Finite? ==> d.time.ms == t
  {
    if InRange(t) then Date(Finite(t)) else Date(NaN)
  }

  /** `d.getTime()` */
  function GetTime(d: Date): (t: TimeValue)
    ensures ValidDate(d) ==> t.NaN? || InRange(t.ms)
  {
    d.time
  }

  /** Load side: a null timestamp means no expiry, any other one becomes a Date. */
  function LoadExpiry(timestamp: Option<int>): (r: Option<Date>)
    ensures r.None? <==> timestamp.None?
    ensures r.Some? ==> r.value == NewDate(timestamp.value)
  {
    match timestamp
    case None => None
    case Some(t) => Some(NewDate(t))
  }

  /** Save side: no expiry stays null, a Date becomes its time value. */
  function SaveExpiry(expiryDate: Option<Date>): (r: Option<TimeValue>)
    ensures r.None? <==> expiryDate.None?
    ensures r.Some? ==> r.value == GetTime(expiryDate.value)
  {
    match expiryDate
    case None => None
    case Some(d) => Some(GetTime(d))
  }

  /** How a JSON encoder writes a Number: NaN is written as null. */
  function JsonNumber(v: Option<TimeValue>): (r: Option<int>)
    ensures r.Some? <==> v.Some? && v.value.Finite?
    ensures r.Some? ==> r.value == v.value.ms
  {
    match v
    case Some(Finite(ms)) => Some(ms)
    case _ => None
  }

  /** The stored record: `{accessToken, refreshToken, expiryTimestamp}`. */
  datatype TokenData = TokenData(accessToken: string, refreshToken: string, expiryTimestamp: Option<int>)

  /** What the refreshable auth provider is built from at start-up. */
  datatype AuthState = AuthState(accessToken: string, refreshToken: string, expiry: Option<Date>)

  /** Start-up: the stored record becomes the provider's state. */
  function Load(data: TokenData): (s: AuthState)
    ensures s.accessToken == data.accessToken && s.refreshToken == data.refreshToken
    ensures s.expiry.None? <==> data.expiryTimestamp.None?
  {
    AuthState(data.accessToken, data.refreshToken, LoadExpiry(data.expiryTimestamp))
  }

  /** The refresh callback: the new credentials become the record that is written back. */
  function OnRefresh(accessToken: string, refreshToken: string, expiryDate: Option<Date>): (data: TokenData)
    ensures data.accessToken == accessToken && data.refreshToken == refreshToken
    ensures data.expiryTimestamp.None? <==> (expiryDate.None? || expiryDate.value.time.NaN?)
  {
    TokenData(accessToken, refreshToken, JsonNumber(SaveExpiry(expiryDate)))
  }

  /** Null maps to null in both directions, and a stored timestamp in the Date range,
      loaded into a Date and saved again, gives back the same timestamp. */
  lemma ExpiryRoundTrip(timestamp: Option<int>)
    requires timestamp.Some? ==> InRange(timestamp.value)
    ensures JsonNumber(SaveExpiry(LoadExpiry(timestamp))) == timestamp
    ensures LoadExpiry(None) == None && SaveExpiry(None) == None
  {
  }

  /** A stored timestamp outside the Date range (|t| > 8.64e15) is loaded as an invalid Date
      and would be written back as null. */
  lemma OutOfRangeExpiryBecomesNull(t: int)
    requires !InRange(t)
    ensures LoadExpiry(Some(t)) == Some(Date(NaN))
    ensures JsonNumber(SaveExpiry(LoadExpiry(Some(t)))) == None
  {
  }

  /** Credentials written by the refresh callback are read back unchanged at the next start-up,
      provided the expiry is absent or a valid Date; an invalid Date comes back as no expiry. */
  lemma RefreshThenLoad(accessToken: string, refreshToken: string, expiryDate: Option<Date>)
    requires expiryDate.Some? ==> ValidDate(expiryDate.value)
    ensures var s := Load(OnRefresh(accessToken, refreshToken, expiryDate));
            && s.accessToken == accessToken && s.refreshToken == refreshToken
            && s.expiry == (if expiryDate.Some? && expiryDate.value.time.NaN? then None else expiryDate)
  {
  }

  /** A record with no expiry survives a load and a save: null is not coerced to 0 or a date. */
  lemma NullExpiryPreserved(accessToken: string, refreshToken: string)
    ensures var s := Load(TokenData(accessToken, refreshToken, None));
            OnRefresh(s.accessToken, s.refreshToken, s.expiry) == TokenData(accessToken, refreshToken, None)
  {
  }

}
