/**
 * The mobile one-time codes: how a code is drawn, how issuing one supersedes
 * the earlier codes of the same phone number and event, which row a code
 * matches, and how a match is consumed.
 */
module AppOtps {
  import opened Wrappers
  import opened Types
  import opened Seqs
  import Text

  /** Ten minutes, in the milliseconds of the store's clock. */
  const OtpLifetime := 600000
  /** The same lifetime as reported to the app, in seconds. */
  const OtpLifetimeSeconds := 600

  /** `floor(1000 + r * 9000)` for the random fraction r = num / den in [0, 1). */
  function OtpValue(num: nat, den: nat): (v: nat)
    requires num < den
    ensures 1000 <= v <= 9999
  {
    assert 9000 * num < 9000 * den;
    1000 + (9000 * num) / den
  }

  /** The code as text: always four decimal digits. */
  function GenerateOtp(num: nat, den: nat): (code: string)
    requires num < den
    ensures Text.FourDigits(code)
  {
    var v := OtpValue(num, den);
    assert Text.Pow10(3) == 1000 && Text.Pow10(4) == 10000;
    Text.NatToStringLength(v, 3);
    Text.NatToString(v)
  }

  /** The row issued at `now`: unverified, expiring ten minutes later, an empty username stored as null. */
  function IssuedOtp(id: string, eventId: string, countryCode: string, phone: string, username: Option<string>, code: string, now: int)
    : (row: AppOtp)
    ensures !row.isVerified && row.expiresAt == now + OtpLifetime
    ensures OtpKey(row) == (eventId, countryCode, phone) && row.otp == code
  {
    AppOtp(id, eventId, countryCode, phone, OrNull(username), code, now + OtpLifetime, false)
  }

  /** The table after every earlier code for the row's (event, country code, phone) is deleted and the row inserted. */
  function Supersede(otps: seq<AppOtp>, row: AppOtp): (r: seq<AppOtp>)
    ensures forall x :: x in r <==> x == row || (x in otps && OtpKey(x) != OtpKey(row))
    ensures forall x :: x in r && OtpKey(x) == OtpKey(row) ==> x == row
  {
    RemoveKey(otps, OtpKey, OtpKey(row)) + [row]
  }

  /** Issuing keeps one row per (event, country code, phone), and unique ids when the new id is free. */
  lemma {:induction false} SupersedeKeepsKeysUnique(otps: seq<AppOtp>, row: AppOtp)
    requires Unique(otps, OtpKey) && Unique(otps, OtpPk)
    requires !HasKey(RemoveKey(otps, OtpKey, OtpKey(row)), OtpPk, row.id)
    ensures Unique(Supersede(otps, row), OtpKey) && Unique(Supersede(otps, row), OtpPk)
  {
    var rest := RemoveKey(otps, OtpKey, OtpKey(row));
    UniqueRemoveKey(otps, OtpKey, OtpKey(row), OtpKey);
    UniqueRemoveKey(otps, OtpKey, OtpKey(row), OtpPk);
    assert !HasKey(rest, OtpKey, OtpKey(row));
    UniqueAppend(rest, OtpKey, row);
    UniqueAppend(rest, OtpPk, row);
  }

  /** The match condition: same event, country code, phone and code, not yet used, not yet expired. */
  predicate Accepts(row: AppOtp, eventId: string, countryCode: string, phone: string, code: string, now: int) {
    && row.eventId == eventId && row.countryCode == countryCode && row.phoneNumber == phone
    && row.otp == code && !row.isVerified && row.expiresAt > now
  }

  function Acceptor(eventId: string, countryCode: string, phone: string, code: string, now: int): AppOtp -> bool {
    (row: AppOtp) => Accepts(row, eventId, countryCode, phone, code, now)
  }

  /** The row a submitted code matches, if any. */
  function MatchOtp(otps: seq<AppOtp>, eventId: string, countryCode: string, phone: string, code: string, now: int)
    : (r: Option<AppOtp>)
    ensures r.Some? ==> r.value in otps && Accepts(r.value, eventId, countryCode, phone, code, now)
    ensures r.None? <==> forall x :: x in otps ==> !Accepts(x, eventId, countryCode, phone, code, now)
  {
    FindFirst(otps, Acceptor(eventId, countryCode, phone, code, now))
  }

  function Consume(row: AppOtp): AppOtp { row.(isVerified := true) }

  /** `.update({ is_verified: true }).eq('id', id)`. */
  function MarkVerified(otps: seq<AppOtp>, id: string): (r: seq<AppOtp>)
    ensures |r| == |otps|
    ensures forall i :: 0 <= i < |otps| ==> r[i] == if otps[i].id == id then otps[i].(isVerified := true) else otps[i]
  {
    UpdateKey(otps, OtpPk, id, Consume)
  }

  /** Right after issuing, the new code is accepted until it expires. */
  lemma FreshCodeAccepted(otps: seq<AppOtp>, row: AppOtp, now: int)
    requires !row.isVerified && now < row.expiresAt
    ensures MatchOtp(Supersede(otps, row), row.eventId, row.countryCode, row.phoneNumber, row.otp, now) == Some(row)
  {
    var r := Supersede(otps, row);
    assert Accepts(row, row.eventId, row.countryCode, row.phoneNumber, row.otp, now);
  }

  /** After a new code is issued, every other code for that phone and event is refused. */
  lemma SupersededCodeRejected(otps: seq<AppOtp>, row: AppOtp, code: string, now: int)
    requires code != row.otp
    ensures MatchOtp(Supersede(otps, row), row.eventId, row.countryCode, row.phoneNumber, code, now).None?
  {
  }

  /** Ten minutes after issuing, no code at all is accepted for that phone and event. */
  lemma {:induction false} ExpiredAfterLifetime(
    otps: seq<AppOtp>, id: string, eventId: string, countryCode: string, phone: string, username: Option<string>,
    code: string, issuedAt: int, submitted: string, now: int)
    requires now >= issuedAt + OtpLifetime
    ensures MatchOtp(Supersede(otps, IssuedOtp(id, eventId, countryCode, phone, username, code, issuedAt)),
                     eventId, countryCode, phone, submitted, now).None?
  {
    var row := IssuedOtp(id, eventId, countryCode, phone, username, code, issuedAt);
    var r := Supersede(otps, row);
    forall x | x in r ensures !Accepts(x, eventId, countryCode, phone, submitted, now) {
      if OtpKey(x) == (eventId, countryCode, phone) {
        assert x == row;
      }
    }
  }

  /** A matched code is single use: once its row is marked verified, no code matches that phone and event again. */
  lemma {:induction false} ConsumedCodeRejected(
    otps: seq<AppOtp>, eventId: string, countryCode: string, phone: string, code: string, now: int,
    submitted: string, later: int)
    requires Unique(otps, OtpKey)
    requires MatchOtp(otps, eventId, countryCode, phone, code, now).Some?
    ensures
      var used := MatchOtp(otps, eventId, countryCode, phone, code, now).value;
      MatchOtp(MarkVerified(otps, used.id), eventId, countryCode, phone, submitted, later).None?
  {
    var used := MatchOtp(otps, eventId, countryCode, phone, code, now).value;
    var r := MarkVerified(otps, used.id);
    var k :| 0 <= k < |otps| && otps[k] == used;
    forall x | x in r ensures !Accepts(x, eventId, countryCode, phone, submitted, later) {
      var i :| 0 <= i < |r| && r[i] == x;
      if otps[i].id != used.id && OtpKey(otps[i]) == (eventId, countryCode, phone) {
        assert false;
      }
    }
  }
}
