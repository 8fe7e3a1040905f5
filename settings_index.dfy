/**
 * GET /settings: the user's name and the connection's volume settings, with
 * the stored clock texts converted to seconds.
 */
module SettingsIndex {
  import opened Wrappers
  import opened Strings
  import opened Php
  import opened Tables
  import Seqs
  import SettingsVolume

  /**
   * _convertTimeToSeconds(): 0 for null or empty text and for text that is
   * not exactly three ':'-separated parts; otherwise h·3600 + m·60 + s of the
   * parts read as integers.
   */
  function ConvertTimeToSeconds(t: Option<string>): (r: int)
    ensures t.None? || EmptyString(t.value) ==> r == 0
    ensures t.Some? && |Split(t.value, ':')| != 3 ==> r == 0
    ensures t.Some? && !EmptyString(t.value) && |Split(t.value, ':')| == 3 ==>
      var parts := Split(t.value, ':');
      r == IntVal(parts[0]) * 3600 + IntVal(parts[1]) * 60 + IntVal(parts[2])
  {
    if t.None? || EmptyString(t.value) then 0
    else
      var parts := Split(t.value, ':');
      if |parts| != 3 then 0
      else IntVal(parts[0]) * 3600 + IntVal(parts[1]) * 60 + IntVal(parts[2])
  }

  lemma DivModSeconds(n: nat)
    ensures n / 3600 * 3600 + n % 3600 / 60 * 60 + n % 60 == n
  {
    var h, rest := n / 3600, n % 3600;
    assert n == h * 3600 + rest;
    assert rest == rest / 60 * 60 + rest % 60;
    assert rest % 60 == n % 60 by {
      assert n == (h * 60 + rest / 60) * 60 + rest % 60;
    }
  }

  /** Seconds written by parseTimeToString() are read back unchanged, for every n >= 0. */
  lemma {:induction false} ConvertFormatSeconds(n: nat)
    ensures ConvertTimeToSeconds(Some(SettingsVolume.FormatSeconds(n))) == n
  {
    var h, m, sec := n / 3600, n % 3600 / 60, n % 60;
    SettingsVolume.FormatSecondsSplit(n);
    SettingsVolume.Pad2Reads(h);
    SettingsVolume.Pad2Reads(m);
    SettingsVolume.Pad2Reads(sec);
    DivModSeconds(n);
  }

  /** A numeric duration accepted by the volume update converts back to the same number of seconds. */
  lemma ParseThenConvert(v: Value)
    requires IsNumeric(v) && ToInt(v) >= 0
    ensures SettingsVolume.ParseTimeToString(v).Some?
    ensures ConvertTimeToSeconds(SettingsVolume.ParseTimeToString(v)) == ToInt(v)
  {
    ConvertFormatSeconds(ToInt(v));
  }

  /** The SELECT's settings object; username is the user's name. */
  datatype Settings = Settings(volume: int, delay: int, alertOffset: int, username: string)

  /** The user row, if the user exists. */
  function UserById(users: seq<User>, userId: int): (r: Option<User>)
    ensures r.None? <==> forall i :: 0 <= i < |users| ==> users[i].id != userId
    ensures r.Some? ==> r.value in users && r.value.id == userId
  {
    Seqs.FindFirst(users, (u: User) => u.id == userId)
  }

  /**
   * The handler.  A connection id of 0 (none in the token) is 403; the row
   * exists iff the user exists and that connection is the user's; a missing
   * volume row gives (int)null = 0 and durations 0.
   */
  function GetSettings(users: seq<User>, connects: seq<Connection>, volumes: map<int, VolumeRow>,
                       userId: int, connectId: int): (r: Reply<Settings>)
    ensures connectId == 0 ==> r == Fail(Forbidden)
    ensures connectId != 0 ==>
      (r == Fail(NotFound) <==> UserById(users, userId).None? || !ConnectionOf(connects, connectId, userId))
    ensures r.Ok? ==>
      && r.data.username == UserById(users, userId).value.username
      && (connectId in volumes ==>
            && r.data.volume == volumes[connectId].volume
            && r.data.delay == ConvertTimeToSeconds(Some(volumes[connectId].delay))
            && r.data.alertOffset == ConvertTimeToSeconds(Some(volumes[connectId].alertOffset)))
      && (connectId !in volumes ==> r.data.volume == 0 && r.data.delay == 0 && r.data.alertOffset == 0)
    ensures r.Fail? ==> r.code in {Forbidden, NotFound}
  {
    if connectId == 0 then Fail(Forbidden)
    else
      match UserById(users, userId)
      case None => Fail(NotFound)
      case Some(user) =>
        if !ConnectionOf(connects, connectId, userId) then Fail(NotFound)
        else if connectId in volumes then
          var v := volumes[connectId];
          Ok(Settings(v.volume, ConvertTimeToSeconds(Some(v.delay)), ConvertTimeToSeconds(Some(v.alertOffset)), user.username))
        else Ok(Settings(0, ConvertTimeToSeconds(None), ConvertTimeToSeconds(None), user.username))
  }

  /** After an update with numeric seconds, GET /settings reports those seconds. */
  lemma SettingsAfterUpdate(users: seq<User>, connects: seq<Connection>, volumes: map<int, VolumeRow>,
                            userId: int, connectId: int, volume: int, delay: nat, alertOffset: nat)
    requires GetSettings(users, connects, volumes, userId, connectId).Ok?
    ensures
      var row := VolumeRow(volume, SettingsVolume.FormatSeconds(delay), SettingsVolume.FormatSeconds(alertOffset));
      var r := GetSettings(users, connects, volumes[connectId := row], userId, connectId);
      r.Ok? && r.data.volume == volume && r.data.delay == delay && r.data.alertOffset == alertOffset
  {
    ConvertFormatSeconds(delay);
    ConvertFormatSeconds(alertOffset);
  }
}
