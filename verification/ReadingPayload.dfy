// The '|'-joined text a device signs for a reading.
module ReadingPayload {
  import opened Basics
  import opened Strings

  // What Number.toString yields: never empty, never a '|'.
  type NumberText = s: string | s != "" && '|' !in s witness "0"

  // A parameter is absent (no entry), null (None) or a number.
  type Params = map<string, Option<NumberText>>

  const KEYS := ["ph", "turbidity", "dissolvedOxygen", "flowRate", "nitrogen", "phosphorus", "temperature"]

  function Printed(params: Params, key: string): string {
    if key in params && params[key].Some? then params[key].value else ""
  }

  function Values(params: Params, n: nat): seq<string>
    requires n <= |KEYS|
  {
    seq(n, i requires 0 <= i < n => Printed(params, KEYS[i]))
  }

  function Payload(deviceId: string, timestamp: string, params: Params): string {
    Join([deviceId, timestamp] + Values(params, |KEYS|), '|')
  }

  lemma PayloadIsSpelled(deviceId: string, timestamp: string, params: Params)
    ensures Payload(deviceId, timestamp, params) ==
      deviceId + "|" + timestamp + "|" + Printed(params, "ph") + "|" + Printed(params, "turbidity") + "|" +
      Printed(params, "dissolvedOxygen") + "|" + Printed(params, "flowRate") + "|" + Printed(params, "nitrogen") + "|" +
      Printed(params, "phosphorus") + "|" + Printed(params, "temperature")
  {
    var p := (key: string) => Printed(params, key);
    var parts := [deviceId, timestamp, p("ph"), p("turbidity"), p("dissolvedOxygen"), p("flowRate"), p("nitrogen"),
      p("phosphorus"), p("temperature")];
    assert [deviceId, timestamp] + Values(params, |KEYS|) == parts;
    JoinNine(parts, '|');
  }

  lemma JoinNine(parts: seq<string>, sep: char)
    requires |parts| == 9
    ensures Join(parts, sep) ==
      parts[0] + [sep] + parts[1] + [sep] + parts[2] + [sep] + parts[3] + [sep] + parts[4] + [sep] + parts[5] + [sep] +
      parts[6] + [sep] + parts[7] + [sep] + parts[8]
  {
    assert Join(parts[8..], sep) == parts[8];
    assert Join(parts[7..], sep) == parts[7] + [sep] + Join(parts[7..][1..], sep);
    assert parts[7..][1..] == parts[8..];
    assert Join(parts[6..], sep) == parts[6] + [sep] + Join(parts[7..], sep);
    assert Join(parts[5..], sep) == parts[5] + [sep] + Join(parts[6..], sep);
    assert Join(parts[4..], sep) == parts[4] + [sep] + Join(parts[5..], sep);
    assert Join(parts[3..], sep) == parts[3] + [sep] + Join(parts[4..], sep);
    assert Join(parts[2..], sep) == parts[2] + [sep] + Join(parts[3..], sep);
    assert Join(parts[1..], sep) == parts[1] + [sep] + Join(parts[2..], sep);
  }

  method BuildReadingPayload(deviceId: string, timestamp: string, params: Params) returns (payload: string)
    ensures payload == Payload(deviceId, timestamp, params)
    ensures payload ==
      deviceId + "|" + timestamp + "|" + Printed(params, "ph") + "|" + Printed(params, "turbidity") + "|" +
      Printed(params, "dissolvedOxygen") + "|" + Printed(params, "flowRate") + "|" + Printed(params, "nitrogen") + "|" +
      Printed(params, "phosphorus") + "|" + Printed(params, "temperature")
  {
    PayloadIsSpelled(deviceId, timestamp, params);
    var parts := [deviceId, timestamp];
    for i := 0 to |KEYS|
      invariant parts == [deviceId, timestamp] + Values(params, i)
    {
      var key := KEYS[i];
      parts := parts + [if key in params && params[key].Some? then params[key].value else ""];
    }
    payload := Join(parts, '|');
  }

  // null and absent are the same reading.
  predicate SameValue(a: Params, b: Params, key: string) {
    if key in a && a[key].Some? then key in b && b[key] == a[key] else key !in b || b[key].None?
  }

  predicate SameReading(a: Params, b: Params) {
    forall i :: 0 <= i < |KEYS| ==> SameValue(a, b, KEYS[i])
  }

  lemma ValuesAreFree(params: Params)
    ensures forall part :: part in Values(params, |KEYS|) ==> '|' !in part
  {
  }

  lemma PayloadParts(deviceId: string, timestamp: string, params: Params)
    ensures Split(Payload(deviceId, timestamp, params), '|') ==
      Split(deviceId + ['|'] + timestamp, '|') + Values(params, |KEYS|)
  {
    var values := Values(params, |KEYS|);
    JoinOfSum([deviceId, timestamp], values, '|');
    assert Join([deviceId, timestamp], '|') == deviceId + ['|'] + timestamp;
    SplitAtSeparator(deviceId + ['|'] + timestamp, Join(values, '|'), '|');
    ValuesAreFree(params);
    SplitUndoesJoin(values, '|');
  }

  lemma SameValuesSameReading(a: Params, b: Params)
    ensures Values(a, |KEYS|) == Values(b, |KEYS|) <==> SameReading(a, b)
  {
    forall i | 0 <= i < |KEYS| ensures Values(a, |KEYS|)[i] == Values(b, |KEYS|)[i] <==> SameValue(a, b, KEYS[i]) {
    }
  }

  // What a payload determines, for every input: all seven values, and the
  // device id and timestamp up to where one ends and the other starts.
  lemma PayloadDetermines(d1: string, t1: string, p1: Params, d2: string, t2: string, p2: Params)
    ensures Payload(d1, t1, p1) == Payload(d2, t2, p2) <==>
      (d1 + ['|'] + t1 == d2 + ['|'] + t2 && SameReading(p1, p2))
  {
    var v1, v2 := Values(p1, |KEYS|), Values(p2, |KEYS|);
    var h1, h2 := d1 + ['|'] + t1, d2 + ['|'] + t2;
    SameValuesSameReading(p1, p2);
    PayloadParts(d1, t1, p1);
    PayloadParts(d2, t2, p2);
    JoinUndoesSplit(h1, '|');
    JoinUndoesSplit(h2, '|');
    JoinUndoesSplit(Payload(d1, t1, p1), '|');
    JoinUndoesSplit(Payload(d2, t2, p2), '|');
    if Payload(d1, t1, p1) == Payload(d2, t2, p2) {
      var s1, s2 := Split(h1, '|'), Split(h2, '|');
      assert s1 + v1 == s2 + v2;
      assert |v1| == |v2| == |KEYS|;
      assert s1 == (s1 + v1)[..|s1|] && s2 == (s2 + v2)[..|s2|];
      assert v1 == (s1 + v1)[|s1|..] && v2 == (s2 + v2)[|s2|..];
    }
  }

  ghost predicate Unambiguous(d: string, t: string) {
    forall d2, t2 :: d2 + ['|'] + t2 == d + ['|'] + t ==> d2 == d && t2 == t
  }

  lemma FreeFieldsAreFound(d: string, t: string, d2: string, t2: string)
    requires '|' !in d && '|' !in t && d2 + ['|'] + t2 == d + ['|'] + t
    ensures d2 == d && t2 == t
  {
    SplitAtSeparator(d, t, '|');
    SplitAtSeparator(d2, t2, '|');
    SplitOfFree(d, '|');
    SplitOfFree(t, '|');
    JoinUndoesSplit(d2, '|');
    JoinUndoesSplit(t2, '|');
    var left, right := Split(d2, '|'), Split(t2, '|');
    assert |left| == 1 && |right| == 1;
    assert (left + right)[0] == left[0] && (left + right)[1] == right[0];
  }

  // No other device id and timestamp give the same payload iff neither has '|'.
  lemma UnambiguousIffFree(d: string, t: string)
    ensures Unambiguous(d, t) <==> '|' !in d && '|' !in t
  {
    if '|' in d {
      var i :| 0 <= i < |d| && d[i] == '|';
      assert d[..i] + ['|'] + (d[i + 1..] + ['|'] + t) == d + ['|'] + t;
    } else if '|' in t {
      var i :| 0 <= i < |t| && t[i] == '|';
      assert (d + ['|'] + t[..i]) + ['|'] + t[i + 1..] == d + ['|'] + t;
    } else {
      forall d2, t2 | d2 + ['|'] + t2 == d + ['|'] + t ensures d2 == d && t2 == t {
        FreeFieldsAreFound(d, t, d2, t2);
      }
    }
  }

  // On '|'-free fields the payload is injective.
  lemma PayloadIsInjective(d1: string, t1: string, p1: Params, d2: string, t2: string, p2: Params)
    requires '|' !in d1 && '|' !in t1
    ensures Payload(d1, t1, p1) == Payload(d2, t2, p2) <==> d1 == d2 && t1 == t2 && SameReading(p1, p2)
  {
    PayloadDetermines(d1, t1, p1, d2, t2, p2);
    UnambiguousIffFree(d1, t1);
  }
}
