/**
 * oauthUsecase.Authorize: mint an authorization code (section 4.1.2 of RFC 6749) and keep
 * its record in the store, under the code itself, for ten minutes.
 */
module OauthUseCase {
  import opened Base
  import B64 = Base64Url
  import Dto
  import Global
  import Kv

  /** Ten minutes: the code's deadline and the lifetime of its stored record. */
  const CodeLifetime := 600

  /** The record kept for a new code: who asked, for whom, where to send it and until when. */
  function NewCodeRecord(random: seq<byte>, clientId: string, redirectUri: string, user: Dto.LoginResponse, now: int)
    : (rec: Dto.CodeRecord)
    requires |random| == 32
    ensures |rec.code| == 43 && B64.Decode(rec.code) == Some(random)
    ensures rec.clientId == clientId && rec.redirectUri == redirectUri && rec.userSub == user
    ensures rec.expiresAt - now == CodeLifetime
  {
    Dto.CodeRecord(Global.GenCode(random), clientId, user, redirectUri, now + CodeLifetime)
  }

  /**
   * Authorize: `random` is what GenCode reads from the random source and `storeErr` the
   * store's error, if SET fails; then the zero record comes back with that error. The
   * response type is not looked at here.
   */
  method Authorize(kv: Kv.Store, random: seq<byte>, clientId: string, redirectUri: string, responseType: string,
                   user: Dto.LoginResponse, now: int, storeErr: Option<string>)
    returns (rec: Dto.CodeRecord, err: Option<string>)
    requires |random| == 32
    modifies kv
    ensures var made := NewCodeRecord(random, clientId, redirectUri, user, now);
      if storeErr.Some? then
        err == storeErr && rec == Dto.ZeroCodeRecord && kv.data == old(kv.data)
      else
        err.None? && rec == made
        && kv.data == Kv.SetSpec(old(kv.data), made.code, Dto.EncodeCodeRecord(made), CodeLifetime, now)
  {
    var data := NewCodeRecord(random, clientId, redirectUri, user, now);
    var json := Dto.EncodeCodeRecord(data);
    var ok := kv.Set(data.code, json, CodeLifetime, now, storeErr.Some?);
    if !ok {
      return Dto.ZeroCodeRecord, storeErr;
    }
    rec, err := data, None;
  }

  /**
   * The stored record reads back, as the record that was made, for ten minutes; from then
   * on the code is unknown to the store.
   */
  lemma StoredCodeReadsBack(db: Kv.Db, rec: Dto.CodeRecord, now: int, later: int)
    ensures var g := Kv.GetSpec(Kv.SetSpec(db, rec.code, Dto.EncodeCodeRecord(rec), CodeLifetime, now), rec.code, later);
      if later < now + CodeLifetime then g.Hit? && Dto.DecodeCodeRecord(g.s) == Some(rec) else g.Miss?
  {
    Kv.SetThenGet(db, rec.code, Dto.EncodeCodeRecord(rec), CodeLifetime, now, later);
    Dto.CodeRecordRoundTrip(rec);
  }

  /** Storing a code leaves every other key, the earlier codes among them, as it was. */
  lemma OtherCodesKept(db: Kv.Db, rec: Dto.CodeRecord, other: string, now: int, later: int)
    requires other != rec.code
    ensures Kv.GetSpec(Kv.SetSpec(db, rec.code, Dto.EncodeCodeRecord(rec), CodeLifetime, now), other, later)
            == Kv.GetSpec(db, other, later)
  {
    Kv.SetOtherKey(db, rec.code, other, Dto.EncodeCodeRecord(rec), CodeLifetime, now, later);
  }
}
