/**
  The generic helpers of the plugin's `Utility` class: GUID recognition,
  multi-needle search, descending comparators, count-or-minus-one, prefix
  removal, decoding of maybe-JSON values and minutes formatting.
*/
module Utility {
  import opened Wrappers
  import opened Decimal
  import opened Php

  // ---------------------------------------------------------------------------
  // is_guid
  // ---------------------------------------------------------------------------

  /** A character of the class [a-f\d] under the case-insensitive flag. */
  predicate IsHexDigit(c: char) {
    IsDigit(c) || 'a' <= c <= 'f' || 'A' <= c <= 'F'
  }

  predicate AllHex(s: string) {
    forall i :: 0 <= i < |s| ==> IsHexDigit(s[i])
  }

  /** The 27-character tail ([hex]{4}-){3}[hex]{12} of a GUID. */
  predicate DashedGroups(u: string) {
    && |u| == 27
    && AllHex(u[..4]) && u[4] == '-'
    && AllHex(u[5..9]) && u[9] == '-'
    && AllHex(u[10..14]) && u[14] == '-'
    && AllHex(u[15..])
  }

  /** What lies between `^` and `$` in the GUID pattern: [hex]{8}-?([hex]{4}-){3}[hex]{12}. */
  predicate GuidBody(t: string) {
    if |t| == 36 then t[8] == '-' && AllHex(t[..8]) && DashedGroups(t[9..])
    else |t| == 35 && AllHex(t[..8]) && DashedGroups(t[8..])
  }

  /** The hex digits and dashes of an accepted GUID body are all it holds. */
  lemma GuidBodyChars(t: string)
    requires GuidBody(t)
    ensures forall i :: 0 <= i < |t| ==> IsHexDigit(t[i]) || t[i] == '-'
  {
    var d := if |t| == 36 then 9 else 8;
    var u := t[d..];
    forall i | 0 <= i < |t|
      ensures IsHexDigit(t[i]) || t[i] == '-'
    {
      if i < 8 {
        assert t[i] == t[..8][i];
      } else if i >= d {
        var k := i - d;
        assert t[i] == u[k];
        if k < 4 { assert u[k] == u[..4][k]; }
        else if 5 <= k < 9 { assert u[k] == u[5..9][k - 5]; }
        else if 10 <= k < 14 { assert u[k] == u[10..14][k - 10]; }
        else if 15 <= k { assert u[k] == u[15..][k - 15]; }
      }
    }
  }

  /**
    `is_guid($str)`. The pattern's `$` (no D modifier) also matches just before a
    final newline, so one trailing "\n" is accepted. No braces are stripped.
  */
  function IsGuid(s: string): (r: bool)
    ensures r ==> |s| == 35 || |s| == 36 || |s| == 37
    ensures r ==> forall i :: 0 <= i < |s| ==> s[i] != '{' && s[i] != '}'
  {
    if GuidBody(s) then
      GuidBodyChars(s);
      true
    else if |s| > 0 && s[|s| - 1] == '\n' && GuidBody(s[..|s| - 1]) then
      GuidBodyChars(s[..|s| - 1]);
      assert forall i :: 0 <= i < |s| - 1 ==> s[i] == s[..|s| - 1][i];
      true
    else
      false
  }

  /**
    A GUID as its five hex groups (8, 4, 4, 4 and 12 digits, named after the
    fields of RFC 4122) and whether the first group is followed by a dash.
  */
  datatype Guid = Guid(timeLow: string, timeMid: string, timeHigh: string, clockSeq: string, node: string,
                       firstDash: bool)

  predicate ValidGuid(g: Guid) {
    && |g.timeLow| == 8 && AllHex(g.timeLow)
    && |g.timeMid| == 4 && AllHex(g.timeMid)
    && |g.timeHigh| == 4 && AllHex(g.timeHigh)
    && |g.clockSeq| == 4 && AllHex(g.clockSeq)
    && |g.node| == 12 && AllHex(g.node)
  }

  /** The four dash-terminated groups and the node: the shared tail of both renderings. */
  function Tail(g: Guid): string {
    g.timeMid + "-" + g.timeHigh + "-" + g.clockSeq + "-" + g.node
  }

  /** The 8-4-4-4-12 rendering of a GUID, the first dash being optional. */
  function Render(g: Guid): (r: string)
    requires ValidGuid(g)
    ensures |r| == if g.firstDash then 36 else 35
  {
    g.timeLow + (if g.firstDash then "-" else "") + Tail(g)
  }

  /** The tail of a valid GUID has the shape ([hex]{4}-){3}[hex]{12}. */
  lemma TailIsDashedGroups(g: Guid)
    requires ValidGuid(g)
    ensures DashedGroups(Tail(g))
  {
    var p1 := g.timeMid + "-";
    var p2 := p1 + g.timeHigh + "-";
    var p3 := p2 + g.clockSeq + "-";
    var u := Tail(g);
    assert u == p3 + g.node;
    assert u[..15] == p3 && u[15..] == g.node;
    assert p3[..10] == p2 && p3[10..14] == g.clockSeq && p3[14] == '-';
    assert p2[..5] == p1 && p2[5..9] == g.timeHigh && p2[9] == '-';
    assert p1[..4] == g.timeMid && p1[4] == '-';
    assert u[..4] == g.timeMid;
    assert u[5..9] == g.timeHigh;
    assert u[10..14] == g.clockSeq;
  }

  /** Every rendered GUID is accepted, with or without one trailing newline. */
  lemma RenderIsGuid(g: Guid)
    requires ValidGuid(g)
    ensures IsGuid(Render(g)) && IsGuid(Render(g) + "\n")
  {
    var r := Render(g);
    var d := if g.firstDash then 9 else 8;
    var u := Tail(g);
    assert r[..8] == g.timeLow;
    assert r[d..] == u;
    TailIsDashedGroups(g);
    assert GuidBody(r);
    assert (r + "\n")[..|r + "\n"| - 1] == r;
  }

  /** The groups of an accepted GUID body, read back. */
  function GroupsOf(t: string): (g: Guid)
    requires GuidBody(t)
    ensures ValidGuid(g) && Render(g) == t
  {
    var d := if |t| == 36 then 9 else 8;
    var u := t[d..];
    var g := Guid(t[..8], u[..4], u[5..9], u[10..14], u[15..], |t| == 36);
    assert u == Tail(g);
    assert t == t[..8] + t[8..d] + u;
    g
  }

  /** Every accepted string is a rendered GUID, possibly followed by one newline. */
  lemma GuidIsRendered(s: string) returns (g: Guid)
    requires IsGuid(s)
    ensures ValidGuid(g)
    ensures s == Render(g) || s == Render(g) + "\n"
  {
    if GuidBody(s) {
      g := GroupsOf(s);
    } else {
      g := GroupsOf(s[..|s| - 1]);
      assert s == s[..|s| - 1] + "\n";
    }
  }

  /**
    The check the GUID helper evidently intends: the whole string, and nothing
    more, is an 8-4-4-4-12 GUID (the pattern anchored with `\z` or the D modifier).
  */
  function IsGuidStrict(s: string): (r: bool)
    ensures r ==> |s| == 35 || |s| == 36
    ensures r ==> IsGuid(s)
    ensures r ==> s[|s| - 1] != '\n'
  {
    if GuidBody(s) then
      GuidBodyChars(s);
      true
    else
      false
  }

  /** The strict check accepts exactly the rendered GUIDs. */
  lemma IsGuidStrictIsRendered(s: string)
    ensures IsGuidStrict(s) <==> exists g :: ValidGuid(g) && Render(g) == s
  {
    if IsGuidStrict(s) {
      var g := GroupsOf(s);
      assert ValidGuid(g) && Render(g) == s;
    }
    if exists g :: ValidGuid(g) && Render(g) == s {
      var g :| ValidGuid(g) && Render(g) == s;
      RenderIsGuid(g);
      assert |s| == 35 || |s| == 36;
    }
  }

  /**
    `is_guid` as written accepts every GUID followed by a newline, for instance
    "0123abcd-4567-89ab-cdef-0123456789ab\n"; the strict check rejects them all.
  */
  lemma IsGuidAcceptsTrailingNewline(g: Guid)
    requires ValidGuid(g)
    ensures IsGuid(Render(g) + "\n")
    ensures !IsGuidStrict(Render(g) + "\n")
  {
    RenderIsGuid(g);
  }

  // ---------------------------------------------------------------------------
  // strposabool
  // ---------------------------------------------------------------------------

  /**
    `strposabool($haystack, $needles, $offset)`: searches the needles in order
    with `mb_strpos` and returns true on the first one found at or after the
    offset. An offset outside the haystack makes the first search throw.
  */
  method StrPosABool(haystack: string, needles: seq<string>, offset: int) returns (r: Result<bool, PhpError>)
    ensures |needles| == 0 ==> r == Ok(false)
    ensures |needles| > 0 && ResolveOffset(|haystack|, offset).None? ==> r == Err(ValueError)
    ensures ResolveOffset(|haystack|, offset).Some? ==>
      var start := ResolveOffset(|haystack|, offset).value;
      r == Ok(exists k :: 0 <= k < |needles| && OccursFrom(haystack, needles[k], start))
  {
    var i := 0;
    while i < |needles|
      invariant 0 <= i <= |needles|
      invariant i > 0 ==> ResolveOffset(|haystack|, offset).Some?
      invariant ResolveOffset(|haystack|, offset).Some? ==>
        forall k :: 0 <= k < i ==> !OccursFrom(haystack, needles[k], ResolveOffset(|haystack|, offset).value)
    {
      var found := StrPos(haystack, needles[i], offset);
      match found {
        case Err(e) =>
          return Err(e);
        case Ok(pos) =>
          if pos.Some? {
            return Ok(true);
          }
      }
      i := i + 1;
    }
    return Ok(false);
  }

  // ---------------------------------------------------------------------------
  // sort_by_created_desc / sort_by_start_desc
  // ---------------------------------------------------------------------------

  /** An object carrying a `created` timestamp. */
  datatype Flag = Flag(created: int)

  /** An object carrying a `start` timestamp. */
  datatype Session = Session(start: int)

  /** `sort_by_created_desc($a, $b)`: a usort comparator putting later `created` first. */
  function SortByCreatedDesc(a: Flag, b: Flag): (r: int)
    ensures r == -1 || r == 0 || r == 1
    ensures r == 0 <==> a.created == b.created
    ensures r == -1 <==> a.created > b.created
    ensures r == 1 <==> a.created < b.created
  {
    if a.created == b.created then 0 else if a.created > b.created then -1 else 1
  }

  /** `sort_by_start_desc($a, $b)`: a usort comparator putting later `start` first. */
  function SortByStartDesc(a: Session, b: Session): (r: int)
    ensures r == -1 || r == 0 || r == 1
    ensures r == 0 <==> a.start == b.start
    ensures r == -1 <==> a.start > b.start
    ensures r == 1 <==> a.start < b.start
  {
    if a.start == b.start then 0 else if a.start > b.start then -1 else 1
  }

  /** Both comparators are antisymmetric and transitive, as usort requires. */
  lemma ComparatorsAreConsistent()
    ensures forall a: Flag, b: Flag :: SortByCreatedDesc(a, b) == -SortByCreatedDesc(b, a)
    ensures forall a: Flag, b: Flag, c: Flag ::
      SortByCreatedDesc(a, b) <= 0 && SortByCreatedDesc(b, c) <= 0 ==> SortByCreatedDesc(a, c) <= 0
    ensures forall a: Session, b: Session :: SortByStartDesc(a, b) == -SortByStartDesc(b, a)
    ensures forall a: Session, b: Session, c: Session ::
      SortByStartDesc(a, b) <= 0 && SortByStartDesc(b, c) <= 0 ==> SortByStartDesc(a, c) <= 0
  {
  }

  /** Keys that never increase from one position to the next never increase at all. */
  lemma {:induction false} AdjacentNonIncreasing(keys: seq<int>)
    requires forall i :: 0 <= i < |keys| - 1 ==> keys[i] >= keys[i + 1]
    ensures forall i, j :: 0 <= i < j < |keys| ==> keys[i] >= keys[j]
  {
    if |keys| > 1 {
      var rest := keys[1..];
      assert forall i :: 0 <= i < |rest| ==> rest[i] == keys[i + 1];
      AdjacentNonIncreasing(rest);
      forall i, j | 0 <= i < j < |keys|
        ensures keys[i] >= keys[j]
      {
        if i > 0 {
          assert keys[i] == rest[i - 1] && keys[j] == rest[j - 1];
        } else if j > 1 {
          assert keys[1] == rest[0] && keys[j] == rest[j - 1];
        }
      }
    }
  }

  /** A list that `sort_by_created_desc` orders pairwise is newest-first throughout. */
  lemma SortedByCreatedDescIsNewestFirst(flags: seq<Flag>)
    requires forall i :: 0 <= i < |flags| - 1 ==> SortByCreatedDesc(flags[i], flags[i + 1]) <= 0
    ensures forall i, j :: 0 <= i < j < |flags| ==> flags[i].created >= flags[j].created
  {
    var keys := seq(|flags|, i requires 0 <= i < |flags| => flags[i].created);
    assert forall i :: 0 <= i < |keys| ==> keys[i] == flags[i].created;
    AdjacentNonIncreasing(keys);
  }

  /** A list that `sort_by_start_desc` orders pairwise is latest-start-first throughout. */
  lemma SortedByStartDescIsLatestFirst(sessions: seq<Session>)
    requires forall i :: 0 <= i < |sessions| - 1 ==> SortByStartDesc(sessions[i], sessions[i + 1]) <= 0
    ensures forall i, j :: 0 <= i < j < |sessions| ==> sessions[i].start >= sessions[j].start
  {
    var keys := seq(|sessions|, i requires 0 <= i < |sessions| => sessions[i].start);
    assert forall i :: 0 <= i < |keys| ==> keys[i] == sessions[i].start;
    AdjacentNonIncreasing(keys);
  }

  // ---------------------------------------------------------------------------
  // count_if_countable
  // ---------------------------------------------------------------------------

  /** `count_if_countable($var)`: the element count, or -1 when the value is not countable. */
  function CountIfCountable(v: PhpValue): (r: int)
    ensures r == -1 <==> !IsCountable(v)
    ensures r >= 0 <==> IsCountable(v)
    ensures v.Arr? ==> r == |v.items|
    ensures v.Obj? && v.countable.Some? ==> r == v.countable.value
  {
    if IsCountable(v) then Count(v) else -1
  }

  // ---------------------------------------------------------------------------
  // remove_prefix
  // ---------------------------------------------------------------------------

  /**
    `remove_prefix($prefix, $text)`: drops `prefix` when `strpos` finds it at
    index 0, otherwise returns `text` as it is. The result is always a suffix.
  */
  function RemovePrefix(prefix: string, text: string): (r: string)
    ensures StartsWith(text, prefix) ==> prefix + r == text
    ensures !StartsWith(text, prefix) ==> r == text
    ensures |r| <= |text| && r == text[|text| - |r|..]
  {
    if StrPos(text, prefix, 0) == Ok(Some(0)) then text[|prefix|..] else text
  }

  /** Removing a prefix undoes prepending it. */
  lemma RemovePrefixRoundTrip(prefix: string, rest: string)
    ensures RemovePrefix(prefix, prefix + rest) == rest
  {
  }

  // ---------------------------------------------------------------------------
  // get_data_from_maybe_json
  // ---------------------------------------------------------------------------

  /** The characters a JSON array, object or string starts with. */
  predicate IsJsonLeader(c: char) {
    c == '{' || c == '[' || c == '"'
  }

  /** `0 + $v` for a numeric value; the conversion of a numeric string is the oracle `toNumber`. */
  function PlusZero(v: PhpValue, toNumber: string -> NumberValue): (r: NumberValue)
    requires IsNumeric(v)
    ensures v.Int? || v.Float? ==> r == v
  {
    if v.Str? then toNumber(v.s) else v
  }

  /**
    `get_data_from_maybe_json($value, $asobject)`. Numeric values are coerced to a
    number; other non-strings and short strings come back unchanged; the three
    JSON literals map to their values; strings starting like a JSON array,
    object or string are decoded with `jsonDecode`, whose null (failure) keeps
    the original string; every other string comes back unchanged.
    `asObject` is handed to `json_decode` as its `$associative` parameter, so
    true asks for associative arrays, not objects, despite the name.
  */
  function GetDataFromMaybeJson(value: PhpValue, asObject: bool,
                                toNumber: string -> NumberValue,
                                jsonDecode: (string, bool) -> PhpValue): (r: PhpValue)
    ensures !value.Str? ==> r == value
    ensures value.Str? && IsNumericString(value.s) ==> r == toNumber(value.s)
    ensures value.Str? && !IsNumericString(value.s) && |value.s| < 2 ==> r == value
    ensures value == Str("null") ==> r == Null
    ensures value == Str("true") ==> r == Bool(true)
    ensures value == Str("false") ==> r == Bool(false)
    ensures value.Str? && |value.s| >= 2 && IsJsonLeader(value.s[0]) ==>
      r == (if jsonDecode(value.s, asObject).Null? then value else jsonDecode(value.s, asObject))
    ensures (value.Str? && |value.s| >= 2 && !IsJsonLeader(value.s[0]) && !IsNumericString(value.s)
             && value.s != "null" && value.s != "true" && value.s != "false") ==> r == value
    ensures r.Null? ==> value.Null? || value == Str("null")
  {
    NumericLeadingChar(if value.Str? then value.s else "");
    if IsNumeric(value) then PlusZero(value, toNumber)
    else if !value.Str? then value
    else
      var s := value.s;
      if |s| < 2 then value
      else if s == "null" then Null
      else if s == "true" then Bool(true)
      else if s == "false" then Bool(false)
      else if !IsJsonLeader(s[0]) then value
      else
        var decoded := jsonDecode(s, asObject);
        if decoded.Null? then value else decoded
  }

  // ---------------------------------------------------------------------------
  // minutes_to_hours_mins
  // ---------------------------------------------------------------------------

  /**
    `minutes_to_hours_mins($minutes)` with the default format '%02d:%02d':
    the empty string below one minute, otherwise whole hours and the remaining
    minutes, each zero-padded to two digits at least.
  */
  function MinutesToHoursMins(minutes: int): (r: string)
    ensures minutes < 1 <==> r == ""
    ensures minutes >= 1 ==> |r| >= 5 && r[|r| - 3] == ':'
  {
    if minutes < 1 then ""
    else Format02d(minutes / 60) + ":" + Format02d(minutes % 60)
  }

  /**
    The hour part is padded to two digits and no further: the clock is exactly
    five characters long below 100 hours, and only that form starts with a zero.
  */
  lemma MinutesToHoursMinsWidth(minutes: int)
    requires minutes >= 1
    ensures |MinutesToHoursMins(minutes)| == 5 <==> minutes < 6000
    ensures MinutesToHoursMins(minutes)[0] == '0' ==> |MinutesToHoursMins(minutes)| == 5
  {
    var hs := Format02d(minutes / 60);
    assert MinutesToHoursMins(minutes)[0] == hs[0];
  }

  /** Reads an "H:MM" clock back: at least two hour digits, a colon, two minute digits. */
  function ParseClock(s: string): Option<(nat, nat)> {
    if |s| >= 5 && s[|s| - 3] == ':' && AllDigits(s[..|s| - 3]) && AllDigits(s[|s| - 2..])
    then Some((Value(s[..|s| - 3]), Value(s[|s| - 2..])))
    else None
  }

  /** Hour digits, a colon and two minute digits read back as their two values. */
  lemma ParseClockOfParts(hours: string, mins: string)
    requires |hours| >= 2 && AllDigits(hours)
    requires |mins| == 2 && AllDigits(mins)
    ensures ParseClock(hours + ":" + mins) == Some((Value(hours), Value(mins)))
  {
    ClockParts(hours, mins);
  }

  /** The three parts of an "H:MM" clock sit where `ParseClock` looks for them. */
  lemma ClockParts(hours: string, mins: string)
    requires |mins| == 2
    ensures var r := hours + ":" + mins;
      |r| == |hours| + 3 && r[..|r| - 3] == hours && r[|r| - 3] == ':' && r[|r| - 2..] == mins
  {
    var r := hours + ":" + mins;
    assert r == (hours + ":") + mins;
    assert r[..|r| - 3] == hours;
    assert r[|r| - 2..] == mins;
  }

  /**
    For a positive number of minutes the formatted clock reads back as hours and
    minutes with hours * 60 + minutes equal to the input and minutes below 60.
  */
  lemma MinutesToHoursMinsRoundTrip(minutes: int)
    requires minutes >= 1
    ensures ParseClock(MinutesToHoursMins(minutes)).Some?
    ensures var (h, m) := ParseClock(MinutesToHoursMins(minutes)).value;
      h * 60 + m == minutes && 0 <= m < 60
  {
    var hs := Format02d(minutes / 60);
    var ms := Format02d(minutes % 60);
    ParseClockOfParts(hs, ms);
    assert MinutesToHoursMins(minutes) == hs + ":" + ms;
  }

  /** Distinct positive inputs give distinct clocks. */
  lemma MinutesToHoursMinsInjective(a: int, b: int)
    requires a >= 1 && b >= 1
    requires MinutesToHoursMins(a) == MinutesToHoursMins(b)
    ensures a == b
  {
    MinutesToHoursMinsRoundTrip(a);
    MinutesToHoursMinsRoundTrip(b);
  }
}
