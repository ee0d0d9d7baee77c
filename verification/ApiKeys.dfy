// Device API keys wc_<deviceId>_<secret>: the generator, the guard's parser and
// its device lookup, and the verifier's secret extraction.
module ApiKeys {
  import opened Basics
  import opened Strings

  datatype Parsed = Malformed | Key(deviceId: string, secret: string)

  function Print(deviceId: string, secret: string): string {
    "wc_" + deviceId + "_" + secret
  }

  // const parts = rawKey.split('_') in the guard.
  function Parse(rawKey: string): Parsed {
    var parts := Split(rawKey, '_');
    if |parts| < 3 || parts[0] != "wc" then Malformed
    else Key(Join(parts[1..|parts| - 1], '_'), parts[|parts| - 1])
  }

  // verifyDeviceApiKey: the last segment, without looking at the first.
  function SecretOf(plaintext: string): Option<string> {
    var parts := Split(plaintext, '_');
    if |parts| < 3 then None else Some(parts[|parts| - 1])
  }

  lemma PrintedParts(deviceId: string, secret: string)
    ensures Split(Print(deviceId, secret), '_') == ["wc"] + Split(deviceId, '_') + Split(secret, '_')
  {
    PrintIs(deviceId, secret);
    SplitAtSeparator("wc", deviceId + ['_'] + secret, '_');
    SplitAtSeparator(deviceId, secret, '_');
    SplitOfFree("wc", '_');
  }

  lemma ParseUndoesPrint(deviceId: string, secret: string)
    requires '_' !in secret
    ensures Parse(Print(deviceId, secret)) == Key(deviceId, secret)
  {
    PrintedParts(deviceId, secret);
    SplitOfFree(secret, '_');
    var parts := Split(Print(deviceId, secret), '_');
    assert parts[1..|parts| - 1] == Split(deviceId, '_');
    JoinUndoesSplit(deviceId, '_');
  }

  lemma PrintUndoesParse(rawKey: string)
    requires Parse(rawKey).Key?
    ensures rawKey == Print(Parse(rawKey).deviceId, Parse(rawKey).secret) && '_' !in Parse(rawKey).secret
  {
    var parts := Split(rawKey, '_');
    var n := |parts| - 1;
    PartsAreFree(rawKey, '_');
    assert parts[n] in parts;
    RejoinsAsPrinted(parts);
    JoinUndoesSplit(rawKey, '_');
  }

  lemma RejoinsAsPrinted(parts: seq<string>)
    requires |parts| >= 3 && parts[0] == "wc"
    ensures Join(parts, '_') == Print(Join(parts[1..|parts| - 1], '_'), parts[|parts| - 1])
  {
    var middle, last := parts[1..|parts| - 1], parts[|parts| - 1];
    assert parts[1..] == middle + [last];
    JoinOfSum(middle, [last], '_');
    assert Join([last], '_') == last;
    PrintIs(Join(middle, '_'), last);
    assert Join(parts, '_') == parts[0] + ['_'] + Join(parts[1..], '_');
  }

  lemma PrintIs(deviceId: string, secret: string)
    ensures Print(deviceId, secret) == "wc" + ['_'] + (deviceId + ['_'] + secret)
  {
    assert "wc_" == "wc" + ['_'];
    assert Print(deviceId, secret) == "wc" + ['_'] + (deviceId + ['_'] + secret);
  }

  // The parser accepts exactly the printed keys with an underscore-free secret,
  // whatever underscores the device id has, and recovers both parts.
  lemma ParseInvertsPrint(rawKey: string, deviceId: string, secret: string)
    ensures Parse(rawKey) == Key(deviceId, secret) <==> rawKey == Print(deviceId, secret) && '_' !in secret
  {
    if Parse(rawKey) == Key(deviceId, secret) {
      PrintUndoesParse(rawKey);
    } else if rawKey == Print(deviceId, secret) && '_' !in secret {
      ParseUndoesPrint(deviceId, secret);
      assert false;
    }
  }

  // Guard and verifier agree on the secret of every key the guard accepts.
  lemma SecretsAgree(rawKey: string)
    ensures Parse(rawKey).Key? ==> SecretOf(rawKey) == Some(Parse(rawKey).secret)
    ensures Parse(rawKey).Key? <==> SecretOf(rawKey).Some? && exists rest :: rawKey == "wc_" + rest
  {
    var parts := Split(rawKey, '_');
    if Parse(rawKey).Key? {
      PrintUndoesParse(rawKey);
      assert rawKey == "wc_" + (Parse(rawKey).deviceId + "_" + Parse(rawKey).secret);
    }
    if exists rest :: rawKey == "wc_" + rest {
      var rest :| rawKey == "wc_" + rest;
      assert rawKey == "wc" + ['_'] + rest;
      SplitAtSeparator("wc", rest, '_');
      SplitOfFree("wc", '_');
    }
  }

  // ── The guard ────────────────────────────────────────────────────────────

  datatype Verdict = Missing | MalformedKey | UnknownDevice | NoKeyConfigured | WrongSecret | OtherDevice
      | Accepted(deviceId: string)

  // devices: the stored bcrypt hash, if any, by device id; hash stands for the
  // bcrypt image of a secret under the stored salt.
  function CanActivate(rawKey: string, devices: map<string, Option<int>>, hash: string -> int,
      bodyDeviceId: Option<string>): Verdict {
    if rawKey == "" then Missing
    else
      match Parse(rawKey)
      case Malformed => MalformedKey
      case Key(deviceId, secret) =>
        if deviceId !in devices then UnknownDevice
        else if devices[deviceId].None? then NoKeyConfigured
        else if hash(secret) != devices[deviceId].value then WrongSecret
        else if bodyDeviceId.Some? && bodyDeviceId.value != deviceId then OtherDevice
        else Accepted(deviceId)
  }

  ghost predicate Opens(rawKey: string, stored: int, hash: string -> int, deviceId: string) {
    exists secret :: '_' !in secret && rawKey == Print(deviceId, secret) && hash(secret) == stored
  }

  // The guard authenticates a device iff the key was printed for that device
  // with a matching underscore-free secret and the body claims no other one.
  lemma AcceptedIffPrinted(rawKey: string, devices: map<string, Option<int>>, hash: string -> int,
      body: Option<string>, d: string)
    ensures CanActivate(rawKey, devices, hash, body) == Accepted(d) <==>
      (d in devices && devices[d].Some? && Opens(rawKey, devices[d].value, hash, d) && (body.Some? ==> body.value == d))
  {
    if d in devices && devices[d].Some? && Opens(rawKey, devices[d].value, hash, d) {
      var secret :| '_' !in secret && rawKey == Print(d, secret) && hash(secret) == devices[d].value;
      ParseUndoesPrint(d, secret);
    }
    if Parse(rawKey).Key? {
      PrintUndoesParse(rawKey);
    }
  }

  // Which refusal a key gets: no key, one that is not printed from any device
  // and underscore-free secret, or by what the device table says.
  lemma VerdictsAreExact(rawKey: string, devices: map<string, Option<int>>, hash: string -> int, body: Option<string>)
    ensures var verdict := CanActivate(rawKey, devices, hash, body);
      && (verdict == Missing <==> rawKey == "")
      && (verdict == MalformedKey <==> rawKey != "" && forall d, s :: '_' !in s ==> rawKey != Print(d, s))
  {
    forall d, s | '_' !in s && rawKey == Print(d, s) ensures Parse(rawKey).Key? {
      ParseUndoesPrint(d, s);
    }
    if Parse(rawKey).Key? {
      PrintUndoesParse(rawKey);
    }
  }

  lemma PrintedVerdicts(d: string, s: string, devices: map<string, Option<int>>, hash: string -> int,
      body: Option<string>)
    requires '_' !in s
    ensures var verdict := CanActivate(Print(d, s), devices, hash, body);
      if d !in devices then verdict == UnknownDevice
      else if devices[d] == None then verdict == NoKeyConfigured
      else if devices[d] != Some(hash(s)) then verdict == WrongSecret
      else if body.Some? && body.value != d then verdict == OtherDevice
      else verdict == Accepted(d)
  {
    ParseUndoesPrint(d, s);
  }
}
