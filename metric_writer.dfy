/** `validate_influx_env` and `write_to_influx`: configuration check, the
    defaulting of the snapshot into one measurement, and the order of the
    client's effects. The InfluxDB client itself is represented only by the
    effects it is asked to perform. */
module MetricWriter {
  import opened Wrappers
  import opened StatusFetcher

  /** The InfluxDB settings as read from the environment (`None`: unset). */
  datatype InfluxConfig = InfluxConfig(url: Option<string>, token: Option<string>, org: Option<string>, bucket: string)

  /** Python's `not value` for an environment setting: unset or empty. A
      value of white space only is present. */
  predicate Unset(v: Option<string>) { v == None || v == Some("") }

  /** The mandatory settings, in the order they are checked. */
  function RequiredSettings(cfg: InfluxConfig): seq<(string, Option<string>)> {
    [("INFLUX_URL", cfg.url), ("INFLUX_TOKEN", cfg.token), ("INFLUX_ORG", cfg.org)]
  }

  function Names(settings: seq<(string, Option<string>)>): (r: seq<string>)
    ensures |r| == |settings| && forall i :: 0 <= i < |r| ==> r[i] == settings[i].0
  {
    if settings == [] then [] else [settings[0].0] + Names(settings[1..])
  }

  /** The names of the unset settings, in order. */
  function MissingNames(settings: seq<(string, Option<string>)>): seq<string> {
    if settings == [] then []
    else (if Unset(settings[0].1) then [settings[0].0] else []) + MissingNames(settings[1..])
  }

  /** The names of the unset mandatory settings: at most three, drawn in
      order from INFLUX_URL, INFLUX_TOKEN, INFLUX_ORG. */
  function MissingSettings(cfg: InfluxConfig): (r: seq<string>)
    ensures |r| <= 3
    ensures IsSubsequence(r, ["INFLUX_URL", "INFLUX_TOKEN", "INFLUX_ORG"])
  {
    var s := RequiredSettings(cfg);
    MissingNamesExact(s);
    SubsequenceLength(MissingNames(s), Names(s));
    assert Names(s) == ["INFLUX_URL", "INFLUX_TOKEN", "INFLUX_ORG"];
    MissingNames(s)
  }

  /** `xs` is `ys` with some elements left out. */
  predicate IsSubsequence(xs: seq<string>, ys: seq<string>)
    decreases |ys|
  {
    if xs == [] then true
    else if ys == [] then false
    else if xs[0] == ys[0] then IsSubsequence(xs[1..], ys[1..])
    else IsSubsequence(xs, ys[1..])
  }

  lemma {:induction false} SubsequenceLength(xs: seq<string>, ys: seq<string>)
    requires IsSubsequence(xs, ys)
    ensures |xs| <= |ys|
    decreases |ys|
  {
    if xs != [] {
      if xs[0] == ys[0] {
        SubsequenceLength(xs[1..], ys[1..]);
      } else {
        SubsequenceLength(xs, ys[1..]);
      }
    }
  }

  /** The ValueError `validate_influx_env` raises. */
  datatype ConfigError = ConfigError(missing: seq<string>)

  /** `n` occurs in `text`. */
  ghost predicate Mentions(text: string, n: string) {
    exists i :: 0 <= i <= |text| && n <= text[i..]
  }

  lemma {:induction false} MentionsAfter(pre: string, text: string, names: seq<string>)
    requires forall n :: n in names ==> Mentions(text, n)
    ensures forall n :: n in names ==> Mentions(pre + text, n)
  {
    forall n | n in names ensures Mentions(pre + text, n) {
      var i :| 0 <= i <= |text| && n <= text[i..];
      assert (pre + text)[|pre| + i..] == text[i..];
    }
  }

  /** `", ".join(names)`: every name occurs in the joined text. */
  function Join(names: seq<string>): (r: string)
    ensures forall n :: n in names ==> Mentions(r, n)
  {
    if names == [] then ""
    else if |names| == 1 then
      assert names[0] <= names[0][0..];
      names[0]
    else
      var tail := Join(names[1..]);
      MentionsAfter(names[0] + ", ", tail, names[1..]);
      assert names[0] <= (names[0] + ", " + tail)[0..];
      assert names == [names[0]] + names[1..];
      names[0] + ", " + tail
  }

  /** The fixed start of the error text. */
  const Lead := "Missing required environment variables: "

  /** The text the error is printed with: the fixed lead-in, then every
      missing name. */
  function Message(e: ConfigError): (r: string)
    ensures Lead <= r
    ensures forall n :: n in e.missing ==> Mentions(r, n)
  {
    MentionsAfter(Lead, Join(e.missing), e.missing);
    Lead + Join(e.missing)
  }

  /** Joining one more name appends the separator and that name: the text
      grows as the list of missing names does. */
  lemma {:induction false} JoinSnoc(xs: seq<string>, y: string)
    requires xs != []
    ensures Join(xs + [y]) == Join(xs) + ", " + y
    decreases |xs|
  {
    if |xs| == 1 {
      assert (xs + [y])[1..] == [y];
    } else {
      assert (xs + [y])[1..] == xs[1..] + [y];
      JoinSnoc(xs[1..], y);
    }
  }

  /** `validate_influx_env`: collects the unset names in a list, then raises
      when the list is not empty. */
  method ValidateInfluxEnv(cfg: InfluxConfig) returns (r: Outcome<ConfigError>)
    ensures r.Fail? <==> Unset(cfg.url) || Unset(cfg.token) || Unset(cfg.org)
    ensures r.Fail? ==> r.error.missing == MissingSettings(cfg)
  {
    var missing: seq<string> := [];
    if cfg.url == None || cfg.url == Some("") {
      missing := missing + ["INFLUX_URL"];
    }
    if cfg.token == None || cfg.token == Some("") {
      missing := missing + ["INFLUX_TOKEN"];
    }
    if cfg.org == None || cfg.org == Some("") {
      missing := missing + ["INFLUX_ORG"];
    }
    if missing != [] {
      MissingSettingsUnfold(cfg);
      return Fail(ConfigError(missing));
    }
    return Pass;
  }

  /** The reported names are exactly the unset ones, in the order of the
      settings. */
  lemma {:induction false} MissingNamesExact(settings: seq<(string, Option<string>)>)
    ensures forall x :: x in MissingNames(settings) <==>
              exists i :: 0 <= i < |settings| && settings[i].0 == x && Unset(settings[i].1)
    ensures IsSubsequence(MissingNames(settings), Names(settings))
    decreases |settings|
  {
    if settings != [] {
      var rest := settings[1..];
      MissingNamesExact(rest);
      forall x ensures x in MissingNames(settings) <==>
                 exists i :: 0 <= i < |settings| && settings[i].0 == x && Unset(settings[i].1)
      {
        if x in MissingNames(rest) {
          var i :| 0 <= i < |rest| && rest[i].0 == x && Unset(rest[i].1);
          assert settings[i + 1] == rest[i];
        }
        if exists i :: 0 <= i < |settings| && settings[i].0 == x && Unset(settings[i].1) {
          var i :| 0 <= i < |settings| && settings[i].0 == x && Unset(settings[i].1);
          if i > 0 {
            assert rest[i - 1] == settings[i];
          }
        }
      }
      var m := MissingNames(rest);
      assert Names(settings)[1..] == Names(rest);
      if Unset(settings[0].1) {
        assert MissingNames(settings)[1..] == m;
      } else {
        assert MissingNames(settings) == m;
        SubsequenceOfTail(m, Names(settings));
      }
    }
  }

  lemma {:induction false} SubsequenceOfTail(xs: seq<string>, ys: seq<string>)
    requires ys != [] && IsSubsequence(xs, ys[1..])
    ensures IsSubsequence(xs, ys)
    decreases |ys|, 1
  {
    if xs != [] && xs[0] == ys[0] {
      SubsequenceDropFirst(xs, ys[1..]);
    }
  }

  lemma {:induction false} SubsequenceDropFirst(xs: seq<string>, zs: seq<string>)
    requires xs != [] && IsSubsequence(xs, zs)
    ensures IsSubsequence(xs[1..], zs)
    decreases |zs|, 2
  {
    if xs[0] == zs[0] {
      SubsequenceOfTail(xs[1..], zs);
    } else {
      SubsequenceDropFirst(xs, zs[1..]);
      SubsequenceOfTail(xs[1..], zs);
    }
  }

  /** The three checks of `validate_influx_env`, spelled out. */
  lemma {:induction false} MissingSettingsUnfold(cfg: InfluxConfig)
    ensures MissingSettings(cfg) ==
              (if Unset(cfg.url) then ["INFLUX_URL"] else [])
              + (if Unset(cfg.token) then ["INFLUX_TOKEN"] else [])
              + (if Unset(cfg.org) then ["INFLUX_ORG"] else [])
  {
    var s3: seq<(string, Option<string>)> := [];
    var s2 := [("INFLUX_ORG", cfg.org)];
    var s1 := [("INFLUX_TOKEN", cfg.token)] + s2;
    var s := RequiredSettings(cfg);
    assert s[1..] == s1 && s1[1..] == s2 && s2[1..] == s3;
    assert MissingNames(s2) == (if Unset(cfg.org) then ["INFLUX_ORG"] else []) + MissingNames(s3);
    assert MissingNames(s1) == (if Unset(cfg.token) then ["INFLUX_TOKEN"] else []) + MissingNames(s2);
    assert MissingNames(s) == (if Unset(cfg.url) then ["INFLUX_URL"] else []) + MissingNames(s1);
  }

  /** Validation outcome: it fails exactly when a mandatory setting is unset or
      empty, and it names exactly those settings, in the order URL, token,
      organisation. */
  lemma {:induction false} ValidatorReportsExactlyMissing(cfg: InfluxConfig)
    ensures MissingSettings(cfg) != [] <==> Unset(cfg.url) || Unset(cfg.token) || Unset(cfg.org)
    ensures forall x :: x in MissingSettings(cfg) <==>
              || (x == "INFLUX_URL" && Unset(cfg.url))
              || (x == "INFLUX_TOKEN" && Unset(cfg.token))
              || (x == "INFLUX_ORG" && Unset(cfg.org))
    ensures IsSubsequence(MissingSettings(cfg), ["INFLUX_URL", "INFLUX_TOKEN", "INFLUX_ORG"])
  {
    var s := RequiredSettings(cfg);
    MissingNamesExact(s);
    MissingSettingsUnfold(cfg);
    assert Names(s) == ["INFLUX_URL", "INFLUX_TOKEN", "INFLUX_ORG"];
    forall x ensures x in MissingSettings(cfg) <==>
              || (x == "INFLUX_URL" && Unset(cfg.url))
              || (x == "INFLUX_TOKEN" && Unset(cfg.token))
              || (x == "INFLUX_ORG" && Unset(cfg.org))
    {
      if x in MissingSettings(cfg) {
        var i :| 0 <= i < |s| && s[i].0 == x && Unset(s[i].1);
        assert i == 0 || i == 1 || i == 2;
      }
      if x == "INFLUX_URL" && Unset(cfg.url) { assert s[0].0 == x; }
      if x == "INFLUX_TOKEN" && Unset(cfg.token) { assert s[1].0 == x; }
      if x == "INFLUX_ORG" && Unset(cfg.org) { assert s[2].0 == x; }
    }
    if Unset(cfg.url) || Unset(cfg.token) || Unset(cfg.org) {
      var x := if Unset(cfg.url) then "INFLUX_URL" else if Unset(cfg.token) then "INFLUX_TOKEN" else "INFLUX_ORG";
      assert x in MissingSettings(cfg);
    }
  }
  lemma {:induction false} JoinTwo(a: string, b: string)
    ensures Join([a, b]) == a + ", " + b
  {
    JoinSnoc([a], b);
    assert [a] + [b] == [a, b];
  }

  lemma {:induction false} JoinThree(a: string, b: string, c: string)
    ensures Join([a, b, c]) == a + ", " + b + ", " + c
  {
    JoinTwo(a, b);
    JoinSnoc([a, b], c);
    assert [a, b] + [c] == [a, b, c];
  }

  /** The exact text of the error for each combination of unset settings:
      the lead-in, then the missing names in URL, token, organisation order,
      separated by ", ". */
  lemma {:induction false} ValidationMessage(cfg: InfluxConfig)
    ensures var m := Message(ConfigError(MissingSettings(cfg)));
            var u, t, o := Unset(cfg.url), Unset(cfg.token), Unset(cfg.org);
            && (u && t && o ==> m == Lead + "INFLUX_URL" + ", " + "INFLUX_TOKEN" + ", " + "INFLUX_ORG")
            && (u && t && !o ==> m == Lead + "INFLUX_URL" + ", " + "INFLUX_TOKEN")
            && (u && !t && o ==> m == Lead + "INFLUX_URL" + ", " + "INFLUX_ORG")
            && (!u && t && o ==> m == Lead + "INFLUX_TOKEN" + ", " + "INFLUX_ORG")
            && (u && !t && !o ==> m == Lead + "INFLUX_URL")
            && (!u && t && !o ==> m == Lead + "INFLUX_TOKEN")
            && (!u && !t && o ==> m == Lead + "INFLUX_ORG")
  {
    var u, t, o := Unset(cfg.url), Unset(cfg.token), Unset(cfg.org);
    if u && t && o {
      AllMissingMessage(cfg);
    } else if (u && t) || (u && o) || (t && o) {
      TwoMissingMessage(cfg);
    } else if u || t || o {
      OneMissingMessage(cfg);
    }
  }

  lemma {:induction false} AllMissingMessage(cfg: InfluxConfig)
    requires Unset(cfg.url) && Unset(cfg.token) && Unset(cfg.org)
    ensures Message(ConfigError(MissingSettings(cfg)))
              == Lead + "INFLUX_URL" + ", " + "INFLUX_TOKEN" + ", " + "INFLUX_ORG"
  {
    MissingSettingsUnfold(cfg);
    assert MissingSettings(cfg) == ["INFLUX_URL", "INFLUX_TOKEN", "INFLUX_ORG"];
    JoinThree("INFLUX_URL", "INFLUX_TOKEN", "INFLUX_ORG");
  }

  lemma {:induction false} TwoMissingMessage(cfg: InfluxConfig)
    requires var u, t, o := Unset(cfg.url), Unset(cfg.token), Unset(cfg.org);
             (u && t && !o) || (u && !t && o) || (!u && t && o)
    ensures var m := Message(ConfigError(MissingSettings(cfg)));
            var u, t, o := Unset(cfg.url), Unset(cfg.token), Unset(cfg.org);
            && (u && t ==> m == Lead + "INFLUX_URL" + ", " + "INFLUX_TOKEN")
            && (u && o ==> m == Lead + "INFLUX_URL" + ", " + "INFLUX_ORG")
            && (t && o ==> m == Lead + "INFLUX_TOKEN" + ", " + "INFLUX_ORG")
  {
    MissingSettingsUnfold(cfg);
    if Unset(cfg.url) && Unset(cfg.token) {
      assert MissingSettings(cfg) == ["INFLUX_URL", "INFLUX_TOKEN"];
      JoinTwo("INFLUX_URL", "INFLUX_TOKEN");
    } else if Unset(cfg.url) {
      assert MissingSettings(cfg) == ["INFLUX_URL", "INFLUX_ORG"];
      JoinTwo("INFLUX_URL", "INFLUX_ORG");
    } else {
      assert MissingSettings(cfg) == ["INFLUX_TOKEN", "INFLUX_ORG"];
      JoinTwo("INFLUX_TOKEN", "INFLUX_ORG");
    }
  }

  lemma {:induction false} OneMissingMessage(cfg: InfluxConfig)
    requires var u, t, o := Unset(cfg.url), Unset(cfg.token), Unset(cfg.org);
             (u && !t && !o) || (!u && t && !o) || (!u && !t && o)
    ensures var m := Message(ConfigError(MissingSettings(cfg)));
            && (Unset(cfg.url) ==> m == Lead + "INFLUX_URL")
            && (Unset(cfg.token) ==> m == Lead + "INFLUX_TOKEN")
            && (Unset(cfg.org) ==> m == Lead + "INFLUX_ORG")
  {
    MissingSettingsUnfold(cfg);
    if Unset(cfg.url) {
      assert MissingSettings(cfg) == ["INFLUX_URL"];
    } else if Unset(cfg.token) {
      assert MissingSettings(cfg) == ["INFLUX_TOKEN"];
    } else {
      assert MissingSettings(cfg) == ["INFLUX_ORG"];
    }
  }

  /** The point written: measurement `dsl_status`, tag `host=speedport` and
      the five fields. */
  datatype Measurement = Measurement(
    name: string, host: string,
    downstream: FieldValue, upstream: FieldValue,
    link: FieldValue, online: FieldValue, connected: FieldValue)

  /** The default `write_to_influx` passes to `data.get` for a key. */
  function DefaultFor(k: string): FieldValue {
    if IsIntKey(k) then IntField(0) else BoolField(false)
  }

  /** `data.get(k, default)`. */
  function FieldOr(data: Snapshot, k: string): FieldValue {
    if k in data then data[k] else DefaultFor(k)
  }

  /** The point builder of `write_to_influx`. */
  function ToMeasurement(data: Snapshot): (m: Measurement)
    ensures m.name == "dsl_status" && m.host == "speedport"
  {
    Measurement("dsl_status", "speedport",
      FieldOr(data, "downstream"), FieldOr(data, "upstream"),
      FieldOr(data, "link"), FieldOr(data, "online"), FieldOr(data, "connected"))
  }

  /** The field of a measurement named by a snapshot key. */
  function FieldOf(m: Measurement, k: string): FieldValue
    requires k in SnapshotKeys
  {
    if k == "downstream" then m.downstream
    else if k == "upstream" then m.upstream
    else if k == "link" then m.link
    else if k == "online" then m.online
    else m.connected
  }

  /** Total record: every field is the snapshot's value when the key is
      present and otherwise 0 for the rates and false for the flags; for a
      well-typed snapshot the rates are ints and the flags bools. */
  lemma {:induction false} MeasurementIsTotal(data: Snapshot, k: string)
    requires k in SnapshotKeys
    ensures k in data ==> FieldOf(ToMeasurement(data), k) == data[k]
    ensures k !in data ==> FieldOf(ToMeasurement(data), k) == (if IsIntKey(k) then IntField(0) else BoolField(false))
    ensures WellTyped(data) ==> (FieldOf(ToMeasurement(data), k).IntField? <==> IsIntKey(k))
  {
  }

  /** What the store does with the one write it is asked for. */
  datatype StoreOutcome = Stored | StoreFailed(reason: string)

  /** What `write_to_influx` asks of the InfluxDB client library, in order. */
  datatype Effect =
    | ClientOpened(url: string, token: string, org: string)
    | PointSent(bucket: string, point: Measurement)
    | ClientClosed

  /** How `write_to_influx` ends: normally, with the validation ValueError, or
      with the write call's exception. */
  datatype WriteResult = Written | ConfigFailed(error: ConfigError) | WriteFailed(reason: string)

  datatype WriteReport = WriteReport(result: WriteResult, effects: seq<Effect>)

  /** `write_to_influx(data)`: validation first, then one client, one point,
      one write; `close()` runs only when the write returned. */
  function WriteToInflux(cfg: InfluxConfig, data: Snapshot, store: StoreOutcome): (w: WriteReport)
    ensures w.result.ConfigFailed? <==> Unset(cfg.url) || Unset(cfg.token) || Unset(cfg.org)
    ensures w.result.ConfigFailed? ==> w.effects == [] && w.result.error.missing == MissingSettings(cfg)
    ensures w.result.WriteFailed? <==> !w.result.ConfigFailed? && store.StoreFailed?
    ensures !w.result.ConfigFailed? ==>
              && cfg.url.Some? && cfg.token.Some? && cfg.org.Some?
              && w.effects == [ClientOpened(cfg.url.value, cfg.token.value, cfg.org.value),
                               PointSent(cfg.bucket, ToMeasurement(data))]
                              + (if w.result.Written? then [ClientClosed] else [])
  {
    var missing := MissingSettings(cfg);
    ValidatorReportsExactlyMissing(cfg);
    if missing != [] then WriteReport(ConfigFailed(ConfigError(missing)), [])
    else
      var sent := [ClientOpened(cfg.url.value, cfg.token.value, cfg.org.value), PointSent(cfg.bucket, ToMeasurement(data))];
      match store
      case StoreFailed(reason) => WriteReport(WriteFailed(reason), sent)
      case Stored => WriteReport(Written, sent + [ClientClosed])
  }
}
