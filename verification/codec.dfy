/**
 The bytes a row is cached as. The original uses encoding/json; this codec is a stand-in.
 The other modules rely on three facts about it only: decoding what was encoded gives the
 row back, an encoded row starts with '{', and decoding accepts nothing else.
 */
module Codec {
  import opened Wrappers
  import Decimal
  import opened Users

  /** A field preceded by its length. */
  function Frame(field: string): string {
    Decimal.Nat(|field|) + ":" + field
  }

  function Frames(fields: seq<string>): string {
    if fields == [] then "" else Frame(fields[0]) + Frames(fields[1..])
  }

  /** The position of the first colon, or the length when there is none. */
  function Colon(s: string): (i: nat)
    ensures i <= |s|
  {
    if s == "" || s[0] == ':' then 0 else 1 + Colon(s[1..])
  }

  function Unframe(s: string): Option<seq<string>>
    decreases |s|
  {
    if s == "" then Some([])
    else
      var i := Colon(s);
      if i == 0 || i == |s| || !Decimal.AllDigits(s[..i]) then None
      else
        var end := i + 1 + Decimal.Value(s[..i]);
        if end > |s| then None
        else
          match Unframe(s[end..])
          case None => None
          case Some(rest) => Some([s[i + 1..end]] + rest)
  }

  lemma {:induction false} ColonAfterDigits(digits: string, rest: string)
    requires Decimal.AllDigits(digits)
    ensures Colon(digits + ":" + rest) == |digits|
  {
    var s := digits + ":" + rest;
    if digits == "" {
      assert s[0] == ':';
    } else {
      assert s[1..] == digits[1..] + ":" + rest;
      ColonAfterDigits(digits[1..], rest);
    }
  }

  lemma {:induction false} FramesRoundTrip(fields: seq<string>)
    ensures Unframe(Frames(fields)) == Some(fields)
  {
    if fields != [] {
      var length, rest := Decimal.Nat(|fields[0]|), Frames(fields[1..]);
      var s := Frames(fields);
      assert s == length + ":" + (fields[0] + rest);
      ColonAfterDigits(length, fields[0] + rest);
      var i := |length|;
      assert s[..i] == length;
      assert s[i + 1..i + 1 + |fields[0]|] == fields[0];
      assert s[i + 1 + |fields[0]|..] == rest;
      FramesRoundTrip(fields[1..]);
      assert [fields[0]] + fields[1..] == fields;
    }
  }

  function Fields(u: User): seq<string> {
    [Decimal.Int(u.id), u.username, u.email, u.profile.phone, u.profile.nickname, u.profile.avatar,
     Decimal.Int(u.profile.status), Decimal.Int(u.version), if u.deleted then "1" else "0"]
  }

  function Encode(u: User): (s: string)
    ensures s != "" && s[0] == '{'
  {
    "{" + Frames(Fields(u))
  }

  function Decode(s: string): (r: Option<User>)
    ensures r.Some? ==> s != "" && s[0] == '{'
  {
    if s == "" || s[0] != '{' then None
    else
      match Unframe(s[1..])
      case None => None
      case Some(f) =>
        if |f| != 9 then None
        else
          match (Decimal.ParseInt(f[0]), Decimal.ParseInt(f[6]), Decimal.ParseInt(f[7]))
          case (Some(id), Some(status), Some(version)) =>
            Some(User(id, f[1], f[2], Profile(f[3], f[4], f[5], status), version, f[8] == "1"))
          case _ => None
  }

  /** A cached row decodes to the row it was made from. */
  lemma DecodeEncode(u: User)
    ensures Decode(Encode(u)) == Some(u)
  {
    FramesRoundTrip(Fields(u));
    assert Encode(u)[1..] == Frames(Fields(u));
    Decimal.IntRoundTrip(u.id);
    Decimal.IntRoundTrip(u.profile.status);
    Decimal.IntRoundTrip(u.version);
  }
}
