/**
 What parse_parm_json makes of a record of texts, by what the texts say: which
 words switch on and off, which literals are numbers, which texts name a host.
 */
module ParamTexts {
  import opened Basics
  import opened Numerals
  import opened Positional
  import opened Params

  /** The text is the lower-case word, up to the case of its letters. */
  predicate SameButCase(s: string, word: string) {
    |s| == |word| &&
    forall i :: 0 <= i < |s| ==> s[i] == word[i] || ('A' <= s[i] <= 'Z' && s[i] as int + 32 == word[i] as int)
  }

  predicate SaysNo(s: string) {
    SameButCase(s, "0") || SameButCase(s, "no") || SameButCase(s, "off") || SameButCase(s, "false")
  }

  predicate SaysYes(s: string) {
    SameButCase(s, "1") || SameButCase(s, "yes") || SameButCase(s, "on") || SameButCase(s, "true")
  }

  lemma {:induction false} LowerIs(s: string, word: string)
    requires forall c :: c in word ==> !('A' <= c <= 'Z')
    ensures Lower(s) == word <==> SameButCase(s, word)
    decreases |s|
  {
    if s != "" && word != "" {
      assert word[0] in word && forall c :: c in word[1..] ==> c in word;
      LowerIs(s[1..], word[1..]);
      assert Lower(s) == word <==> Lower(s)[0] == word[0] && Lower(s)[1..] == word[1..];
      HeadAndRest(s, word);
    }
  }

  lemma HeadAndRest(s: string, word: string)
    requires s != "" && word != ""
    ensures SameButCase(s, word) <==> SameButCase([s[0]], [word[0]]) && SameButCase(s[1..], word[1..])
  {
    assert [s[0]][0] == s[0] && [word[0]][0] == word[0];
    assert forall i :: 0 < i < |s| == |word| ==> s[1..][i - 1] == s[i] && word[1..][i - 1] == word[i];
  }

  /** A switch is off by four words, on by four others, and nothing else. */
  lemma ParseBoolMeans(s: string)
    ensures ParseBool(s) == Some(0) <==> SaysNo(s)
    ensures ParseBool(s) == Some(1) <==> SaysYes(s)
    ensures ParseBool(s) == None <==> !SaysNo(s) && !SaysYes(s)
  {
    LowerIs(s, "0");
    LowerIs(s, "no");
    LowerIs(s, "off");
    LowerIs(s, "false");
    LowerIs(s, "1");
    LowerIs(s, "yes");
    LowerIs(s, "on");
    LowerIs(s, "true");
  }

  /** The text is an unsigned integer literal of 32 bits. */
  ghost predicate SaysNumber(s: string, n: int) {
    0 <= n < TWO_32 && Numeral(s, n)
  }

  lemma ParseNumMeans(s: string, n: int)
    ensures ParseNum(s) == Some(n) <==> SaysNumber(s, n)
  {
    ParseUintBounds(s, 0, TWO_32);
    if n >= 0 {
      ParseUintMeansNumeral(s, TWO_32, n);
    }
  }

  /** What becomes of a numeric parameter, and whether its field is named as bad. */
  ghost predicate NumField(text: string, bad: bool, before: int, after: int) {
    && (bad <==> text != "" && forall n :: !SaysNumber(text, n))
    && (forall n :: text != "" && SaysNumber(text, n) ==> after == n)
    && (text == "" || bad ==> after == before)
  }

  ghost predicate SwitchField(text: string, bad: bool, before: int, after: int) {
    && (bad <==> text != "" && !SaysNo(text) && !SaysYes(text))
    && (SaysNo(text) ==> after == 0)
    && (SaysYes(text) ==> after == 1)
    && (text == "" || bad ==> after == before)
  }

  ghost predicate HostField(text: string, bad: bool, before: string, after: string) {
    && (bad <==> text != "" && forall host, port, topic, n :: !(IsTriple(text, host, port, topic) && IsPort(port, n)))
    && after == (if text == "" || bad then before else text)
  }

  ghost predicate TextField(text: string, before: string, after: string) {
    after == if text == "" then before else text
  }

  lemma NumFieldMeans(text: string, before: int)
    ensures NumField(text, !Acceptable(text, ParseNum(text)), before, Supplied(text, ParseNum(text), before))
  {
    forall n
      ensures ParseNum(text) == Some(n) <==> SaysNumber(text, n)
    {
      ParseNumMeans(text, n);
    }
  }

  lemma SwitchFieldMeans(text: string, before: int)
    ensures SwitchField(text, !Acceptable(text, ParseBool(text)), before, Supplied(text, ParseBool(text), before))
  {
    ParseBoolMeans(text);
  }

  lemma HostFieldMeans(text: string, before: string)
    ensures HostField(text, !Acceptable(text, ParseHost(text)), before, Supplied(text, ParseHost(text), before))
  {
    forall host, port, topic, n | IsTriple(text, host, port, topic) && IsPort(port, n)
      ensures GetTelemetryHost(text) == HostSpec(host, n, topic)
    {
      TelemetryHostIsTriple(text, host, n, topic);
    }
    if GetTelemetryHost(text).HostSpec? {
      var spec := GetTelemetryHost(text);
      TelemetryHostIsTriple(text, spec.host, spec.port, spec.topic);
    }
  }

  // The update from p to q by the record j, where the fields in `bad` are named as bad.

  ghost predicate SwitchesFit(p: AppParams, j: IniData, q: AppParams, bad: seq<string>) {
    && NumField(j.debug, "debug" in bad, p.debug, q.debug)
    && SwitchField(j.nosm, "nosm" in bad, p.nosm, q.nosm)
    && SwitchField(j.useTelemetry, "use_telemetry" in bad, p.useTelemetry, q.useTelemetry)
    && HostField(j.telemetryHost, "telemetry_host" in bad, p.telemetryHost, q.telemetryHost)
  }

  ghost predicate TimesFit(p: AppParams, j: IniData, q: AppParams, bad: seq<string>) {
    && NumField(j.warntime, "warntime" in bad, p.warntime, q.warntime)
    && NumField(j.errtime, "errtime" in bad, p.errtime, q.errtime)
    && NumField(j.interval, "interval" in bad, p.interval, q.interval)
  }

  ghost predicate HsmFit(p: AppParams, j: IniData, q: AppParams, bad: seq<string>) {
    && NumField(j.smTimeout, "sm_timeout" in bad, p.smTimeout, q.smTimeout)
    && NumField(j.smRetries, "sm_retries" in bad, p.smRetries, q.smRetries)
  }

  ghost predicate TextsFit(p: AppParams, j: IniData, q: AppParams, bad: seq<string>, whence: Whence) {
    && TextField(j.kvUrl, p.kvUrl, q.kvUrl) && TextField(j.smUrl, p.smUrl, q.smUrl)
    && ("port" in bad <==> j.port != "" && whence == Patch) && q.port == p.port && q.clearOnGap == p.clearOnGap
  }

  lemma SwitchesMean(p: AppParams, j: IniData)
    ensures SwitchesFit(p, j, MergedSwitches(p, j), BadSwitches(j))
  {
    NumFieldMeans(j.debug, p.debug);
    SwitchFieldMeans(j.nosm, p.nosm);
    SwitchFieldMeans(j.useTelemetry, p.useTelemetry);
    HostFieldMeans(j.telemetryHost, p.telemetryHost);
  }

  lemma TimesMean(p: AppParams, j: IniData)
    ensures TimesFit(p, j, MergedTimes(p, j), BadTimes(j))
  {
    NumFieldMeans(j.warntime, p.warntime);
    NumFieldMeans(j.errtime, p.errtime);
    NumFieldMeans(j.interval, p.interval);
  }

  lemma HsmMeans(p: AppParams, j: IniData)
    ensures HsmFit(p, j, MergedHsm(p, j), BadHsm(j))
  {
    NumFieldMeans(j.smTimeout, p.smTimeout);
    NumFieldMeans(j.smRetries, p.smRetries);
  }

  // The groups in which the fields are looked at.
  datatype Group = Switches | Times | Hsm | Other

  function GroupOf(name: string): Group {
    if name == "debug" || name == "nosm" || name == "use_telemetry" || name == "telemetry_host" then Switches
    else if name == "warntime" || name == "errtime" || name == "interval" then Times
    else if name == "sm_timeout" || name == "sm_retries" then Hsm
    else Other
  }

  lemma BadInGroup(j: IniData, name: string)
    ensures name in BadSwitches(j) ==> GroupOf(name) == Switches
    ensures name in BadTimes(j) ==> GroupOf(name) == Times
    ensures name in BadHsm(j) ==> GroupOf(name) == Hsm
  {
    assert forall ok, n :: name in Complain(ok, n) ==> name == n;
    OtherNames();
  }

  lemma OtherNames()
    ensures GroupOf("warntime") == GroupOf("errtime") == GroupOf("interval") == Times
    ensures GroupOf("sm_timeout") == GroupOf("sm_retries") == Hsm
    ensures GroupOf("port") == Other
  {
  }

  lemma BadIn(j: IniData, whence: Whence, name: string)
    ensures name in BadFields(j, whence) <==>
            match GroupOf(name)
            case Switches => name in BadSwitches(j)
            case Times => name in BadTimes(j)
            case Hsm => name in BadHsm(j)
            case Other => name == "port" && j.port != "" && whence == Patch
  {
    BadInGroup(j, name);
    OtherNames();
    assert name in BadFields(j, whence) <==>
      || name in BadSwitches(j) || name in BadTimes(j) || name in BadHsm(j)
      || (name == "port" && j.port != "" && whence == Patch);
  }

  lemma MergedByGroups(p: AppParams, j: IniData)
    ensures var (q, s, t, h) := (Merged(p, j), MergedSwitches(p, j), MergedTimes(p, j), MergedHsm(p, j));
            && (q.debug, q.nosm, q.useTelemetry, q.telemetryHost) == (s.debug, s.nosm, s.useTelemetry, s.telemetryHost)
            && (q.warntime, q.errtime, q.interval) == (t.warntime, t.errtime, t.interval)
            && (q.smTimeout, q.smRetries) == (h.smTimeout, h.smRetries)
  {
  }

  lemma SwitchesUpdated(p: AppParams, j: IniData, whence: Whence)
    ensures SwitchesFit(p, j, Merged(p, j), BadFields(j, whence))
  {
    MergedByGroups(p, j);
    SwitchesMean(p, j);
    BadIn(j, whence, "debug");
    BadIn(j, whence, "nosm");
    BadIn(j, whence, "use_telemetry");
    BadIn(j, whence, "telemetry_host");
  }

  lemma TimesUpdated(p: AppParams, j: IniData, whence: Whence)
    ensures TimesFit(p, j, Merged(p, j), BadFields(j, whence))
  {
    MergedByGroups(p, j);
    TimesMean(p, j);
    OtherNames();
    BadIn(j, whence, "warntime");
    BadIn(j, whence, "errtime");
    BadIn(j, whence, "interval");
  }

  lemma HsmUpdated(p: AppParams, j: IniData, whence: Whence)
    ensures HsmFit(p, j, Merged(p, j), BadFields(j, whence))
  {
    MergedByGroups(p, j);
    HsmMeans(p, j);
    OtherNames();
    BadIn(j, whence, "sm_timeout");
    BadIn(j, whence, "sm_retries");
  }

  /**
   What parse_parm_json makes of every field, and which fields it names as bad,
   by what the texts say.
   */
  lemma UpdateMeans(p: AppParams, j: IniData, whence: Whence)
    ensures var (q, bad) := (Merged(p, j), BadFields(j, whence));
            SwitchesFit(p, j, q, bad) && TimesFit(p, j, q, bad) && HsmFit(p, j, q, bad)
                && TextsFit(p, j, q, bad, whence)
  {
    SwitchesUpdated(p, j, whence);
    TimesUpdated(p, j, whence);
    HsmUpdated(p, j, whence);
    OtherNames();
    BadIn(j, whence, "port");
  }

  /** In any record, a leading zero makes a time octal, and one with a unit or a blank is refused. */
  lemma TimeExamples(p: AppParams, j: IniData, whence: Whence)
    ensures j.errtime == "010" ==> Merged(p, j).errtime == 8
    ensures j.errtime in {"30s", "12h", "3 0", "+3"} ==> "errtime" in BadFields(j, whence)
  {
    TimesUpdated(p, j, whence);
    if j.errtime == "010" {
      OctalExample(8);
      assert SaysNumber(j.errtime, 8);
    }
    forall n | j.errtime in {"30s", "12h", "3 0", "+3"}
      ensures !SaysNumber(j.errtime, n)
    {
      if n >= 0 {
        RefusedExamples(n);
      }
    }
  }
}
