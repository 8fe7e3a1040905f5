/**
 * PUT /settings/volume: replaces the connection's volume, delay and alert
 * offset.  Durations arrive either as a number of seconds or as clock text,
 * and are stored as clock text "HH:MM:SS".
 */
module SettingsVolume {
  import opened Wrappers
  import opened Strings
  import opened Php
  import opened Tables

  /** sprintf('%02d', n): at least two digits, zero-filled on the left. */
  function Pad2(n: nat): (r: string)
    ensures |r| >= 2 && AllDigits(r)
  {
    if n < 10 then "0" + NatToString(n) else NatToString(n)
  }

  /** The padded text reads back as n. */
  lemma Pad2Reads(n: nat)
    ensures IntVal(Pad2(n)) == n
  {
    var digits := NatToString(n);
    DigitsOfNat(n);
    if n < 10 {
      DigitsValueLeadingZeros("0", digits);
    } else {
      DigitsValueLeadingZeros("", digits);
      assert "" + digits == digits;
    }
  }

  /** Below 100 the padded text is exactly the two decimal digits of n. */
  lemma Pad2Small(n: nat)
    requires n < 100
    ensures Pad2(n) == [DigitChar(n / 10), DigitChar(n % 10)]
  {
    var q, d := n / 10, n % 10;
    assert q < 10;
    if n < 10 {
      assert q == 0 && d == n;
      assert NatToString(n) == [DigitChar(d)];
    } else {
      assert NatToString(q) == [DigitChar(q)];
      assert NatToString(n) == NatToString(q) + [DigitChar(d)];
    }
  }

  /** The clock text of a number of seconds: hours (unbounded), minutes and seconds. */
  function FormatSeconds(n: nat): string
  {
    Join([Pad2(n / 3600), Pad2(n % 3600 / 60), Pad2(n % 60)], ':')
  }

  /** The clock text splits back into its three padded fields. */
  lemma FormatSecondsSplit(n: nat)
    ensures Split(FormatSeconds(n), ':') == [Pad2(n / 3600), Pad2(n % 3600 / 60), Pad2(n % 60)]
    ensures !EmptyString(FormatSeconds(n))
  {
    var h, m, sec := Pad2(n / 3600), Pad2(n % 3600 / 60), Pad2(n % 60);
    assert ':' !in h && ':' !in m && ':' !in sec;
    SplitJoin([h, m, sec], ':');
    JoinThree(h, m, sec, ':');
  }

  /** The hour of the pattern: [0-1]?[0-9] or 2[0-3]. */
  predicate HourText(h: string)
  {
    || (|h| == 1 && IsDigit(h[0]))
    || (|h| == 2 && (h[0] == '0' || h[0] == '1') && IsDigit(h[1]))
    || (|h| == 2 && h[0] == '2' && '0' <= h[1] <= '3')
  }

  /** A minute or second of the pattern: [0-5][0-9]. */
  predicate SixtyText(p: string)
  {
    |p| == 2 && '0' <= p[0] <= '5' && IsDigit(p[1])
  }

  /**
   * The HH:MM:SS pattern, hours 00..23 with an optional leading digit: without the
   * D modifier, the end anchor also matches before one final newline.
   */
  predicate ClockPattern(t: string)
  {
    var body := if |t| > 0 && t[|t| - 1] == '\n' then t[..|t| - 1] else t;
    var parts := Split(body, ':');
    |parts| == 3 && HourText(parts[0]) && SixtyText(parts[1]) && SixtyText(parts[2])
  }

  /**
   * parseTimeToString(): a numeric value becomes clock text unless it is
   * negative; other text is kept as it is when it matches the pattern.
   * None stands for the function's false.
   */
  function ParseTimeToString(v: Value): (r: Option<string>)
    ensures IsNumeric(v) ==> (r.Some? <==> ToInt(v) >= 0)
    ensures IsNumeric(v) && ToInt(v) >= 0 ==> r == Some(FormatSeconds(ToInt(v)))
    ensures !IsNumeric(v) ==> (r.Some? <==> v.Str? && ClockPattern(v.s))
    ensures !IsNumeric(v) && r.Some? ==> r.value == v.s
  {
    if IsNumeric(v) then
      var n := ToInt(v);
      if n < 0 then None else Some(FormatSeconds(n))
    else if v.Str? && ClockPattern(v.s) then Some(v.s)
    else None
  }

  /** Three pieces that match the hour, minute and second patterns, joined by ':', match the pattern. */
  lemma ClockOfTexts(h: string, m: string, sec: string)
    requires HourText(h) && SixtyText(m) && SixtyText(sec)
    ensures ClockPattern(Join([h, m, sec], ':'))
  {
    var parts := [h, m, sec];
    assert ':' !in h && ':' !in m && ':' !in sec;
    SplitJoin(parts, ':');
    var t := Join(parts, ':');
    assert parts[1..] == [m, sec] && [m, sec][1..] == [sec];
    assert Join([m, sec], ':') == m + [':'] + sec;
    assert t == h + [':'] + (m + [':'] + sec);
    assert t[|t| - 1] == sec[1];
  }

  lemma HourOfPad2(h: nat)
    requires h < 24
    ensures HourText(Pad2(h))
  {
    Pad2Small(h);
  }

  lemma SixtyOfPad2(m: nat)
    requires m < 60
    ensures SixtyText(Pad2(m))
  {
    Pad2Small(m);
  }

  /** The seconds of a day are written as clock text the pattern accepts. */
  lemma FormatSecondsIsClock(n: nat)
    requires n < 24 * 3600
    ensures ClockPattern(FormatSeconds(n))
  {
    assert n / 3600 < 24 && n % 3600 / 60 < 60 && n % 60 < 60;
    HourOfPad2(n / 3600);
    SixtyOfPad2(n % 3600 / 60);
    SixtyOfPad2(n % 60);
    ClockOfTexts(Pad2(n / 3600), Pad2(n % 3600 / 60), Pad2(n % 60));
  }

  /** The three fields of the request body; a key not set is None. */
  datatype VolumeRequest = VolumeRequest(volume: Option<Value>, delay: Option<Value>, alertOffset: Option<Value>)

  /** isset(): the key is present and not null. */
  predicate IsSet(v: Option<Value>)
  {
    v.Some? && v.value != Null
  }

  /** Success either changes nothing (empty data) or reports the stored row. */
  datatype VolumeReply = Unchanged | Updated(row: VolumeRow)

  /** The new row the request asks for, or the 422 the validation answers. */
  function Requested(req: VolumeRequest): (r: Option<VolumeRow>)
    ensures r.Some? ==> IsSet(req.volume) && IsSet(req.delay) && IsSet(req.alertOffset)
    ensures r.Some? <==>
      && IsSet(req.volume) && IsSet(req.delay) && IsSet(req.alertOffset)
      && 0 <= ToInt(req.volume.value) <= 100
      && ParseTimeToString(req.delay.value).Some? && ParseTimeToString(req.alertOffset.value).Some?
    ensures r.Some? ==>
      && 0 <= r.value.volume <= 100
      && r.value.volume == ToInt(req.volume.value)
      && Some(r.value.delay) == ParseTimeToString(req.delay.value)
      && Some(r.value.alertOffset) == ParseTimeToString(req.alertOffset.value)
  {
    if !IsSet(req.volume) || !IsSet(req.delay) || !IsSet(req.alertOffset) then None
    else
      var volume := ToInt(req.volume.value);
      if volume < 0 || volume > 100 then None
      else
        match (ParseTimeToString(req.delay.value), ParseTimeToString(req.alertOffset.value))
        case (Some(delay), Some(alertOffset)) => Some(VolumeRow(volume, delay, alertOffset))
        case _ => None
  }

  /**
   * The handler.  connectId comes from the token; body is None when the
   * request is not valid JSON.  There is no transaction.  fault says where a
   * database error strikes: BeforeEffect is the lookup of the current row or
   * the UPDATE itself, so nothing is written; AfterEffect is the re-read after
   * the UPDATE, so the new row is already written.  Both answer 500.  A
   * failing UPDATE leads to the same answer and store as a failing lookup,
   * so the earlier position stands for both.
   */
  method UpdateVolume(s: Store, connectId: int, body: Option<VolumeRequest>, fault: Fault) returns (r: Reply<VolumeReply>)
    modifies s`volumes
    ensures connectId == 0 ==> r == Fail(Forbidden)
    ensures connectId != 0 && body.None? ==> r == Fail(Unprocessable)
    ensures connectId != 0 && body.Some? && fault == BeforeEffect ==> r == Fail(ServerError)
    ensures connectId != 0 && body.Some? && fault != BeforeEffect && connectId !in old(s.volumes) ==> r == Fail(NotFound)
    ensures connectId != 0 && body.Some? && fault != BeforeEffect && connectId in old(s.volumes) ==>
      match Requested(body.value)
      case None => r == Fail(Unprocessable)
      case Some(row) =>
        if row == old(s.volumes)[connectId] then r == Ok(Unchanged)
        else
          && s.volumes == old(s.volumes)[connectId := row]
          && r == if fault == AfterEffect then Fail(ServerError) else Ok(Updated(row))
    ensures !(r.Ok? && r.data.Updated?) && !(r == Fail(ServerError) && fault == AfterEffect) ==> s.volumes == old(s.volumes)
  {
    if connectId == 0 {
      return Fail(Forbidden);
    }
    if body.None? {
      return Fail(Unprocessable);
    }
    if fault == BeforeEffect {
      return Fail(ServerError);
    }
    if connectId !in s.volumes {
      return Fail(NotFound);
    }
    var requested := Requested(body.value);
    if requested.None? {
      return Fail(Unprocessable);
    }
    var row := requested.value;
    if row == s.volumes[connectId] {
      return Ok(Unchanged);
    }
    s.volumes := s.volumes[connectId := row];
    if fault == AfterEffect {
      return Fail(ServerError);
    }
    r := Ok(Updated(row));
  }
}
