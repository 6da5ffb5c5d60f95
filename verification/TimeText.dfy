/** The text form of a TIME value, with the narrowing it goes through, and the
    times it can be read back from. */
module TimeText {
  import opened Prelude
  import opened Clock
  import opened Decimal

  /** Narrowing to a signed 32-bit number. */
  function ToInt32(x: int): (r: int)
    ensures -0x8000_0000 <= r < 0x8000_0000
    ensures -0x8000_0000 <= x < 0x8000_0000 ==> r == x
  {
    (x + 0x8000_0000) % 0x1_0000_0000 - 0x8000_0000
  }

  /** Division by 60 and its remainder, cut toward zero. */
  function Div60(x: int): int {
    if x >= 0 then x / 60 else -(-x / 60)
  }

  function Mod60(x: int): int {
    x - 60 * Div60(x)
  }

  function Layout(neg: bool, hours: int, minutes: int, seconds: nat, micros: nat): string {
    (if neg then "-" else "") + DecInt(hours) + Tail(DecInt(minutes), Dec(seconds), Padded(micros, 6))
  }

  function Tail(minutes: string, seconds: string, micros: string): string {
    ":" + minutes + ":" + seconds + "." + micros
  }

  /** fromTimeCAS: the total of seconds is narrowed to 32 bits before the minutes
      and hours are taken from it. */
  function FromTimeCAS(v: int): string {
    var absTime := if v < 0 then -v else v;
    var totalSeconds := absTime / MICROS;
    var totalMinutes := Div60(ToInt32(totalSeconds));
    Layout(v < 0, Div60(totalMinutes), Mod60(totalMinutes), totalSeconds % 60, absTime % MICROS)
  }

  /** [-]hours:minutes:seconds.micros, with six digits behind the point. */
  function ParseTime(s: string): Option<MySqlTime> {
    var neg := s != "" && s[0] == '-';
    ParseBody(neg, if neg then s[1..] else s)
  }

  function ParseBody(neg: bool, s: string): Option<MySqlTime> {
    match CutAt(s, ':')
    case None => None
    case Some(p) =>
      match CutAt(p.1, ':')
      case None => None
      case Some(q) =>
        match CutAt(q.1, '.')
        case None => None
        case Some(r) => ParseFields(neg, p.0, q.0, r.0, r.1)
  }

  function ParseFields(neg: bool, hours: string, minutes: string, seconds: string, micros: string): Option<MySqlTime> {
    var h, m, s, us := ParseNat(hours), ParseNat(minutes), ParseNat(seconds), ParseNat(micros);
    if h.Some? && m.Some? && s.Some? && us.Some? && |micros| == 6
    then Some(MySqlTime(neg, h.value, m.value, s.value, us.value))
    else None
  }

  lemma BodyFields(neg: bool, hours: string, minutes: string, seconds: string, micros: string)
    requires ':' !in hours && ':' !in minutes && '.' !in seconds
    ensures ParseBody(neg, hours + Tail(minutes, seconds, micros))
            == ParseFields(neg, hours, minutes, seconds, micros)
  {
    hide CutAt, ParseFields;
    var rest2 := seconds + "." + micros;
    var rest1 := minutes + ":" + rest2;
    assert hours + Tail(minutes, seconds, micros) == hours + ":" + rest1;
    CutFirst(hours, ':', rest1);
    CutFirst(minutes, ':', rest2);
    CutFirst(seconds, '.', micros);
  }

  /** What the parser makes of every layout, signs in odd places included. */
  lemma ParseLayout(neg: bool, h: int, m: int, s: nat, us: nat)
    requires us < MICROS
    ensures ParseTime(Layout(neg, h, m, s, us)) ==
            if m < 0 || (neg && h < 0) then None
            else Some(MySqlTime(neg || h < 0, if h < 0 then -h else h, m, s, us))
  {
    hide Dec, Padded, ParseNat, ParseBody, ParseTime, Layout, Tail;
    var hours := if h < 0 && !neg then Dec(-h) else DecInt(h);
    LayoutSigned(neg, h, m, s, us);
    ParseSigned(neg || h < 0, hours + Tail(DecInt(m), Dec(s), Padded(us, 6)));
    BodyFields(neg || h < 0, hours, DecInt(m), Dec(s), Padded(us, 6));
    DecBack(s);
    SixDigits(us);
    NatText(m);
    NatText(h);
    NatText(-h);
  }

  /** A negative number of hours brings its own sign. */
  lemma LayoutSigned(neg: bool, h: int, m: int, s: nat, us: nat)
    ensures var hours := if h < 0 && !neg then Dec(-h) else DecInt(h);
            var body := hours + Tail(DecInt(m), Dec(s), Padded(us, 6));
            && Layout(neg, h, m, s, us) == (if neg || h < 0 then "-" else "") + body
            && body != "" && body[0] == hours[0]
  {
    hide Dec, Tail;
    var hours := if h < 0 && !neg then Dec(-h) else DecInt(h);
    var tail := Tail(DecInt(m), Dec(s), Padded(us, 6));
    if h < 0 && !neg {
      assert "" + DecInt(h) == "-" + hours;
      SameEnds("", DecInt(h), "-", hours, tail);
    }
  }

  lemma SameEnds(a: string, b: string, c: string, d: string, tail: string)
    requires a + b == c + d
    ensures a + b + tail == c + (d + tail)
  {
  }

  lemma ParseSigned(sign: bool, body: string)
    requires body != "" && (!sign ==> body[0] != '-')
    ensures ParseTime((if sign then "-" else "") + body) == ParseBody(sign, body)
  {
    if sign {
      assert ("-" + body)[1..] == body;
    } else {
      assert "" + body == body;
    }
  }

  lemma NatText(v: int)
    ensures ParseNat(DecInt(v)) == if v < 0 then None else Some(v)
  {
    if v >= 0 {
      DecBack(v);
    }
  }

  lemma SixDigits(us: nat)
    requires us < MICROS
    ensures |Padded(us, 6)| == 6 && ParseNat(Padded(us, 6)) == Some(us)
  {
    assert Power10(3) == 1000 && Power10(6) == MICROS;
    DecWidth(us, 6);
    PaddedBack(us, 6);
  }

  function TotalSeconds(t: MySqlTime): nat {
    t.hour * 3600 + t.minute * 60 + t.second
  }

  predicate ValidTime(t: MySqlTime) {
    Representable(t) && t.minute < 60 && t.second < 60 && t.micro < MICROS
  }

  /** There is no negative zero in the text. */
  function Normalised(t: MySqlTime): MySqlTime {
    t.(neg := t.neg && (TotalSeconds(t) > 0 || t.micro > 0))
  }

  /** A valid time comes back from its text exactly when its seconds fit a signed
      32-bit number. */
  lemma TimeRoundTrip(t: MySqlTime)
    requires ValidTime(t)
    ensures ParseTime(FromTimeCAS(ToTimeCAS(t))) == Some(Normalised(t)) <==> TotalSeconds(t) < 0x8000_0000
  {
    hide Layout, ParseTime;
    var ts := WrappedSeconds(t);
    var v := ToTimeCAS(t);
    var w := ToInt32(ts);
    var h, m := Div60(Div60(w)), Mod60(Div60(w));
    Micros(ts, t.micro);
    ParseLayout(v < 0, h, m, ts % 60, t.micro);
    Pieces(t);
  }

  lemma Micros(s: nat, us: nat)
    requires us < MICROS
    ensures (us + MICROS * s) / MICROS == s && (us + MICROS * s) % MICROS == us
  {
  }

  /** The arithmetic behind it: hours, minutes and seconds come apart again as
      they were, or at least one of them differs. */
  lemma Pieces(t: MySqlTime)
    requires ValidTime(t)
    ensures var ts := WrappedSeconds(t); var w := ToInt32(ts); var h, m := Div60(Div60(w)), Mod60(Div60(w));
            if TotalSeconds(t) < 0x8000_0000 then ts == TotalSeconds(t) && h == t.hour && m == t.minute
                && ts % 60 == t.second
            else !(m == t.minute && ts % 60 == t.second && (h == t.hour || h + t.hour == 0))
  {
    hide Div60, Mod60, ToInt32, WrappedSeconds;
    var total := TotalSeconds(t);
    var ts := WrappedSeconds(t);
    var w := ToInt32(ts);
    Wraps(t);
    if total < 0x8000_0000 {
      Apart(t.hour, t.minute, t.second);
    } else {
      Near(w);
      Differs(t, w, Div60(Div60(w)), Mod60(Div60(w)));
    }
  }

  lemma Differs(t: MySqlTime, w: int, h: int, m: int)
    requires ValidTime(t) && TotalSeconds(t) >= 0x8000_0000 && -0x8000_0000 <= w < 0x8000_0000
    requires TotalSeconds(t) < 0x1_0000_0000 ==> w == TotalSeconds(t) - 0x1_0000_0000
    requires -60 < w - (h * 3600 + m * 60) < 60 && (w < 0 ==> h <= 0 && m <= 0)
    ensures !(m == t.minute && (h == t.hour || h + t.hour == 0))
  {
  }

  lemma Wraps(t: MySqlTime)
    ensures var ts := WrappedSeconds(t);
            && (TotalSeconds(t) < 0x1_0000_0000 ==> ts == TotalSeconds(t))
            && (ts >= 0x8000_0000 ==> ToInt32(ts) == ts - 0x1_0000_0000)
  {
  }

  lemma Apart(h: nat, m: nat, s: nat)
    requires m < 60 && s < 60
    ensures var total := h * 3600 + m * 60 + s;
            total % 60 == s && Div60(Div60(total)) == h && Mod60(Div60(total)) == m
  {
    var total := h * 3600 + m * 60 + s;
    assert total / 60 == h * 60 + m;
  }

  lemma Near(w: int)
    ensures var h, m := Div60(Div60(w)), Mod60(Div60(w));
            && -60 < w - (h * 3600 + m * 60) < 60
            && (w < 0 ==> h <= 0 && m <= 0)
            && (w >= 0 ==> h >= 0)
  {
  }

  /** The number a text stands for. */
  function TimeNumber(s: string): Option<int> {
    match ParseTime(s)
    case None => None
    case Some(t) => Some(ToTimeCAS(t))
  }

  /** The same for the numbers found in a chunk, whatever wrote them there. */
  lemma NumberRoundTrip(v: int)
    ensures TimeNumber(FromTimeCAS(v)) == Some(v)
            <==> -0x8000_0000 * MICROS < v < 0x8000_0000 * MICROS
  {
    hide Layout, ParseTime, Div60, Mod60, ToInt32, WrappedSeconds;
    var a := if v < 0 then -v else v;
    var ts := a / MICROS;
    var w := ToInt32(ts);
    var h, m := Div60(Div60(w)), Mod60(Div60(w));
    ParseLayout(v < 0, h, m, ts % 60, a % MICROS);
    Near(w);
    if m >= 0 && !(v < 0 && h < 0) {
      var t := MySqlTime(v < 0 || h < 0, if h < 0 then -h else h, m, ts % 60, a % MICROS);
      SmallTotal(t, w, h);
      Wraps(t);
      Micros(WrappedSeconds(t), t.micro);
      NumberPieces(ts, w, h, m);
    } else {
      NotNarrow(ts);
    }
  }

  lemma SmallTotal(t: MySqlTime, w: int, h: int)
    requires -0x8000_0000 <= w < 0x8000_0000 && t.second < 60 && t.hour == (if h < 0 then -h else h)
    requires -60 < w - (h * 3600 + t.minute * 60) < 60 && (w < 0 ==> h <= 0 && t.minute <= 0)
    requires w >= 0 ==> h >= 0
    ensures TotalSeconds(t) < 0x1_0000_0000
  {
  }

  lemma NotNarrow(ts: nat)
    ensures ts < 0x8000_0000 ==> var w := ToInt32(ts); Div60(Div60(w)) >= 0 && Mod60(Div60(w)) >= 0
  {
  }

  lemma NumberPieces(ts: nat, w: int, h: int, m: nat)
    requires w == ToInt32(ts) && h == Div60(Div60(w)) && m == Mod60(Div60(w))
    ensures (if h < 0 then -h else h) * 3600 + m * 60 + ts % 60 == ts && h >= 0 <==> ts < 0x8000_0000
  {
    if ts >= 0x8000_0000 {
      Near(w);
      if ts < 0x1_0000_0000 {
        assert w == ts - 0x1_0000_0000;
      }
    }
  }

  /** 596524 hours are too long: hours and minutes come out negative, and the
      text is not a time. */
  lemma TooLong(t: MySqlTime)
    requires t == MySqlTime(false, 596524, 0, 0, 0)
    ensures ValidTime(t) && FromTimeCAS(ToTimeCAS(t)) == Layout(false, -596522, -28, 0, 0)
    ensures ParseTime(FromTimeCAS(ToTimeCAS(t))) == None
  {
    hide Layout, ParseTime;
    ParseLayout(false, -596522, -28, 0, 0);
  }
}
